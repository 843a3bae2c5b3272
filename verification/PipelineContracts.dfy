/** The staged results of the vision pipeline and their flat legacy form. */
module PipelineContracts {
  import opened Basics

  /** The values a provider may put into its output; a dictionary keeps its order. */
  datatype Value =
    | Null
    | Bool(b: bool)
    | Num(n: real)
    | Str(s: string)
    | List(items: seq<Value>)
    | Dict(entries: seq<(string, Value)>)

  type Raw = map<string, Value>

  /** What the language's conversions do where it does not follow from the shape of a value. */
  datatype Conversions = Conversions(
    show: Value -> string,
    parse: string -> Option<real>,
    pairs: seq<Value> -> Option<seq<(string, Value)>>)

  /** str() of a value that is not an empty string is not empty. */
  ghost predicate Sound(c: Conversions) { forall v :: c.show(v) != "" }

  function Get(raw: Raw, key: string): Value { if key in raw then raw[key] else Null }

  predicate Truthy(v: Value) {
    match v
    case Null => false
    case Bool(b) => b
    case Num(n) => n != 0.0
    case Str(s) => s != ""
    case List(items) => items != []
    case Dict(entries) => entries != []
  }

  /** str(v or fallback) */
  function TextOr(c: Conversions, v: Value, fallback: string): string {
    if !Truthy(v) then fallback else if v.Str? then v.s else c.show(v)
  }

  /** v or None */
  function OrNone(v: Value): Value { if Truthy(v) then v else Null }

  function ToFloat(c: Conversions, v: Value): Option<real> {
    match v
    case Bool(b) => Some(if b then 1.0 else 0.0)
    case Num(n) => Some(n)
    case Str(s) => c.parse(s)
    case _ => None
  }

  /** list(v or []); None where the language raises. */
  function ToList(v: Value): Option<seq<Value>> {
    if !Truthy(v) then Some([])
    else match v
      case Str(s) => Some(seq(|s|, i requires 0 <= i < |s| => Str([s[i]])))
      case List(items) => Some(items)
      case Dict(entries) => Some(seq(|entries|, i requires 0 <= i < |entries| => Str(entries[i].0)))
      case _ => None
  }

  /** dict(v or {}) */
  function ToDict(c: Conversions, v: Value): Option<seq<(string, Value)>> {
    if !Truthy(v) then Some([])
    else match v
      case List(items) => c.pairs(items)
      case Dict(entries) => Some(entries)
      case _ => None
  }

  // ---------------------------------------------------------------------------
  // The stages
  // ---------------------------------------------------------------------------

  datatype Detection = Detection(
    objectType: string, surfaceCondition: Value, maskPolygon: Value, areaConfidence: real, rawOutput: Raw)

  datatype Extraction = Extraction(
    detection: Detection, estimatedAreaSqm: Option<real>, estimatedUnit: string, recommendedScope: Value,
    materials: seq<Value>, workflowSteps: seq<Value>, estimatedTotalDays: Option<real>, laborHoursTotal: Option<real>,
    catalogAttributes: seq<(string, Value)>)

  datatype Mapping = Mapping(
    extraction: Extraction, workTypeCode: Value, profileCode: Value, profileVersion: Value,
    estimatedQuantity: Option<real>, quantityUnit: string, validationWarnings: seq<Value>)

  datatype RunResult = RunResult(
    providerKey: string, jobType: string, modelName: string, modelVersion: string,
    detection: Detection, extraction: Extraction, mapping: Mapping)

  function DetectionOf(c: Conversions, raw: Raw): Option<Detection> {
    var confidence := if Truthy(Get(raw, "areaConfidence")) then ToFloat(c, Get(raw, "areaConfidence")) else Some(0.0);
    if confidence.None? then None
    else Some(Detection(TextOr(c, Get(raw, "objectType"), "other"), OrNone(Get(raw, "surfaceCondition")),
                        OrNone(Get(raw, "maskPolygon")), confidence.value, raw))
  }

  function ExtractionOf(c: Conversions, raw: Raw, d: Detection): Option<Extraction> {
    var materials, steps := ToList(Get(raw, "materials")), ToList(Get(raw, "workflowSteps"));
    var attributes := ToDict(c, Get(raw, "catalogAttributes"));
    if materials.None? || steps.None? || attributes.None? then None
    else Some(Extraction(d, ToFloat(c, Get(raw, "estimatedAreaSqm")), TextOr(c, Get(raw, "estimatedUnit"), "m2"),
                         OrNone(Get(raw, "recommendedScope")), materials.value, steps.value,
                         ToFloat(c, Get(raw, "estimatedTotalDays")), ToFloat(c, Get(raw, "laborHoursTotal")),
                         attributes.value))
  }

  function MappingOf(c: Conversions, raw: Raw, x: Extraction): Option<Mapping> {
    var quantity := if "estimatedQuantity" in raw then raw["estimatedQuantity"] else Get(raw, "estimatedAreaSqm");
    var warnings := ToList(Get(raw, "validationWarnings"));
    if warnings.None? then None
    else Some(Mapping(x, OrNone(Get(raw, "resolvedWorkTypeCode")), OrNone(Get(raw, "analysisProfileCode")),
                      OrNone(Get(raw, "analysisProfileVersion")), ToFloat(c, quantity),
                      TextOr(c, Get(raw, "estimatedUnit"), "m2"), warnings.value))
  }

  /** None where a conversion raises. */
  function Decompose(c: Conversions, raw: Raw, key: string): Option<RunResult> {
    var d := DetectionOf(c, raw);
    if d.None? then None else
    var x := ExtractionOf(c, raw, d.value);
    if x.None? then None else
    var m := MappingOf(c, raw, x.value);
    if m.None? then None else
    Some(RunResult(TextOr(c, Get(raw, "providerKey"), key), TextOr(c, Get(raw, "jobType"), "manual_trigger"),
                   TextOr(c, Get(raw, "modelName"), key), TextOr(c, Get(raw, "modelVersion"), "1.0"),
                   d.value, x.value, m.value))
  }

  function OptionalNum(n: Option<real>): Value { if n.Some? then Num(n.value) else Null }

  function Flatten(r: RunResult): Raw {
    map[
      "providerKey" := Str(r.providerKey),
      "jobType" := Str(r.jobType),
      "objectType" := Str(r.detection.objectType),
      "surfaceCondition" := r.detection.surfaceCondition,
      "maskPolygon" := r.detection.maskPolygon,
      "areaConfidence" := Num(r.detection.areaConfidence),
      "recommendedScope" := r.extraction.recommendedScope,
      "estimatedAreaSqm" := OptionalNum(r.extraction.estimatedAreaSqm),
      "estimatedUnit" := Str(r.extraction.estimatedUnit),
      "estimatedQuantity" := OptionalNum(r.mapping.estimatedQuantity),
      "materials" := List(r.extraction.materials),
      "workflowSteps" := List(r.extraction.workflowSteps),
      "estimatedTotalDays" := OptionalNum(r.extraction.estimatedTotalDays),
      "laborHoursTotal" := OptionalNum(r.extraction.laborHoursTotal),
      "catalogAttributes" := Dict(r.extraction.catalogAttributes),
      "resolvedWorkTypeCode" := r.mapping.workTypeCode,
      "analysisProfileCode" := r.mapping.profileCode,
      "analysisProfileVersion" := r.mapping.profileVersion,
      "validationWarnings" := List(r.mapping.validationWarnings),
      "modelName" := Str(r.modelName),
      "modelVersion" := Str(r.modelVersion)
    ]
  }

  // ---------------------------------------------------------------------------
  // The normal form
  // ---------------------------------------------------------------------------

  predicate NoneOrTruthy(v: Value) { v.Null? || Truthy(v) }

  predicate Kept(s: string, fallback: string) { s != "" || fallback == "" }

  /** The result without the provider output attached to its detections. */
  function Forget(r: RunResult): RunResult {
    r.(detection := r.detection.(rawOutput := map[]),
       extraction := ForgetIn(r.extraction),
       mapping := r.mapping.(extraction := ForgetIn(r.mapping.extraction)))
  }

  function ForgetIn(x: Extraction): Extraction { x.(detection := x.detection.(rawOutput := map[])) }

  /** The stages refer to each other, and the two units agree. */
  predicate Coherent(r: RunResult) {
    && Forget(r).extraction.detection == Forget(r).detection
    && Forget(r).mapping.extraction == Forget(r).extraction
    && r.mapping.quantityUnit == r.extraction.estimatedUnit
  }

  predicate Normal(r: RunResult, key: string) {
    && Coherent(r)
    && Kept(r.providerKey, key) && Kept(r.modelName, key) && r.jobType != "" && r.modelVersion != ""
    && r.detection.objectType != "" && r.extraction.estimatedUnit != ""
    && NoneOrTruthy(r.detection.surfaceCondition) && NoneOrTruthy(r.detection.maskPolygon)
    && NoneOrTruthy(r.extraction.recommendedScope)
    && NoneOrTruthy(r.mapping.workTypeCode) && NoneOrTruthy(r.mapping.profileCode)
    && NoneOrTruthy(r.mapping.profileVersion)
  }

  /** The same result with another provider output attached to it. */
  function WithRaw(r: RunResult, raw: Raw): RunResult {
    var d := r.detection.(rawOutput := raw);
    var x := r.extraction.(detection := d);
    r.(detection := d, extraction := x, mapping := r.mapping.(extraction := x))
  }

  predicate HasDetection(f: Raw, d: Detection) {
    && Get(f, "objectType") == Str(d.objectType) && Get(f, "surfaceCondition") == d.surfaceCondition
    && Get(f, "maskPolygon") == d.maskPolygon && Get(f, "areaConfidence") == Num(d.areaConfidence)
  }

  predicate HasExtraction(f: Raw, x: Extraction) {
    && Get(f, "estimatedAreaSqm") == OptionalNum(x.estimatedAreaSqm) && Get(f, "estimatedUnit") == Str(x.estimatedUnit)
    && Get(f, "recommendedScope") == x.recommendedScope && Get(f, "materials") == List(x.materials)
    && Get(f, "workflowSteps") == List(x.workflowSteps)
    && Get(f, "estimatedTotalDays") == OptionalNum(x.estimatedTotalDays)
    && Get(f, "laborHoursTotal") == OptionalNum(x.laborHoursTotal)
    && Get(f, "catalogAttributes") == Dict(x.catalogAttributes)
  }

  predicate HasMapping(f: Raw, m: Mapping) {
    && "estimatedQuantity" in f && f["estimatedQuantity"] == OptionalNum(m.estimatedQuantity)
    && Get(f, "resolvedWorkTypeCode") == m.workTypeCode && Get(f, "analysisProfileCode") == m.profileCode
    && Get(f, "analysisProfileVersion") == m.profileVersion
    && Get(f, "validationWarnings") == List(m.validationWarnings)
  }

  predicate HasProvider(f: Raw, r: RunResult) {
    && Get(f, "providerKey") == Str(r.providerKey) && Get(f, "jobType") == Str(r.jobType)
    && Get(f, "modelName") == Str(r.modelName) && Get(f, "modelVersion") == Str(r.modelVersion)
  }

  lemma FlatDetection(r: RunResult)
    ensures HasDetection(Flatten(r), r.detection)
  {
  }

  lemma FlatExtraction(r: RunResult)
    ensures HasExtraction(Flatten(r), r.extraction)
  {
  }

  lemma FlatMapping(r: RunResult)
    ensures HasMapping(Flatten(r), r.mapping)
  {
  }

  lemma FlatProvider(r: RunResult)
    ensures HasProvider(Flatten(r), r)
  {
  }

  function Default(s: string, fallback: string): string { if s == "" then fallback else s }

  /** The result with missing texts and empty optional values at their defaults, the stages linked up, the
      mapping's unit that of the extraction, and `raw` attached. */
  function Normalised(r: RunResult, key: string, raw: Raw): RunResult {
    var d := r.detection.(objectType := Default(r.detection.objectType, "other"),
                          surfaceCondition := OrNone(r.detection.surfaceCondition),
                          maskPolygon := OrNone(r.detection.maskPolygon), rawOutput := raw);
    var unit := Default(r.extraction.estimatedUnit, "m2");
    var x := r.extraction.(detection := d, estimatedUnit := unit,
                           recommendedScope := OrNone(r.extraction.recommendedScope));
    RunResult(Default(r.providerKey, key), Default(r.jobType, "manual_trigger"), Default(r.modelName, key),
              Default(r.modelVersion, "1.0"), d, x,
              r.mapping.(extraction := x, quantityUnit := unit, workTypeCode := OrNone(r.mapping.workTypeCode),
                         profileCode := OrNone(r.mapping.profileCode),
                         profileVersion := OrNone(r.mapping.profileVersion)))
  }

  lemma DetectionFields(c: Conversions, f: Raw, r: RunResult, key: string)
    requires HasDetection(f, r.detection)
    ensures DetectionOf(c, f) == Some(Normalised(r, key, f).detection)
  {
  }

  lemma ExtractionFields(c: Conversions, f: Raw, r: RunResult, key: string)
    requires HasExtraction(f, r.extraction)
    ensures ExtractionOf(c, f, Normalised(r, key, f).detection) == Some(Normalised(r, key, f).extraction)
  {
  }

  lemma MappingFields(c: Conversions, f: Raw, r: RunResult, key: string)
    requires HasMapping(f, r.mapping) && Get(f, "estimatedUnit") == Str(r.extraction.estimatedUnit)
    ensures MappingOf(c, f, Normalised(r, key, f).extraction) == Some(Normalised(r, key, f).mapping)
  {
  }

  lemma DecomposeFields(c: Conversions, f: Raw, r: RunResult, key: string)
    requires HasDetection(f, r.detection) && HasExtraction(f, r.extraction)
    requires HasMapping(f, r.mapping) && HasProvider(f, r)
    ensures Decompose(c, f, key) == Some(Normalised(r, key, f))
  {
    DetectionFields(c, f, r, key);
    ExtractionFields(c, f, r, key);
    MappingFields(c, f, r, key);
  }

  /** The flat form of a result always decomposes, and to exactly its normalised form. */
  lemma DecomposeFlattened(c: Conversions, r: RunResult, key: string)
    ensures Decompose(c, Flatten(r), key) == Some(Normalised(r, key, Flatten(r)))
  {
    FlatDetection(r);
    FlatExtraction(r);
    FlatMapping(r);
    FlatProvider(r);
    DecomposeFields(c, Flatten(r), r, key);
  }

  /** Decomposing the flat form gives the result back, up to the attached provider output, exactly when the result
      is normal; for a staged provider that means in particular that its two units agree. */
  lemma RoundTripIff(c: Conversions, r: RunResult, key: string)
    ensures Decompose(c, Flatten(r), key).Some?
    ensures Forget(Decompose(c, Flatten(r), key).value) == Forget(r) <==> Normal(r, key)
  {
    DecomposeFlattened(c, r, key);
    NormalIsFixed(r, key, Flatten(r));
  }

  lemma NormalIsFixed(r: RunResult, key: string, raw: Raw)
    ensures Forget(Normalised(r, key, raw)) == Forget(r) <==> Normal(r, key)
    ensures Normal(r, key) && r.extraction.detection == r.detection && r.mapping.extraction == r.extraction ==>
      Normalised(r, key, raw) == WithRaw(r, raw)
  {
  }

  /** Whatever decomposes is normal, linked up, and carries its source. */
  lemma DecomposedIsNormal(c: Conversions, raw: Raw, key: string)
    requires Sound(c) && Decompose(c, raw, key).Some?
    ensures var r := Decompose(c, raw, key).value;
      && Normal(r, key) && r.detection.rawOutput == raw
      && r.extraction.detection == r.detection && r.mapping.extraction == r.extraction
  {
  }

  /** Decomposing, flattening and decomposing again changes nothing but the attached provider output; flattening
      once more changes nothing at all. */
  lemma DecomposeIsIdempotent(c: Conversions, raw: Raw, key: string)
    requires Sound(c) && Decompose(c, raw, key).Some?
    ensures var r := Decompose(c, raw, key).value;
      && Decompose(c, Flatten(r), key) == Some(WithRaw(r, Flatten(r)))
      && Flatten(Decompose(c, Flatten(r), key).value) == Flatten(r)
  {
    var r := Decompose(c, raw, key).value;
    DecomposedIsNormal(c, raw, key);
    DecomposeFlattened(c, r, key);
    NormalIsFixed(r, key, Flatten(r));
    SameFlatForm(r, Flatten(r));
  }

  lemma SameFlatForm(r: RunResult, raw: Raw)
    ensures Flatten(WithRaw(r, raw)) == Flatten(r)
  {
  }

  // ---------------------------------------------------------------------------
  // Outputs that are not flat forms
  // ---------------------------------------------------------------------------

  /** The values that count as missing. */
  lemma FalsyIff(v: Value)
    ensures !Truthy(v) <==> v in {Null, Bool(false), Num(0.0), Str(""), List([]), Dict([])}
  {
  }

  /** An empty output decomposes to the defaults. */
  lemma EmptyOutput(c: Conversions, key: string)
    ensures var d := Detection("other", Null, Null, 0.0, map[]);
      var x := Extraction(d, None, "m2", Null, [], [], None, None, []);
      Decompose(c, map[], key) ==
        Some(RunResult(key, "manual_trigger", key, "1.0", d, x, Mapping(x, Null, Null, Null, None, "m2", [])))
  {
  }

  /** The quantity is the output's own, even if that is null, and the area only for want of one. */
  lemma QuantityIs(c: Conversions, raw: Raw, key: string, n: real)
    requires Decompose(c, raw, key).Some?
    ensures var r := Decompose(c, raw, key).value;
      && ("estimatedQuantity" in raw && raw["estimatedQuantity"] == Num(n) ==> r.mapping.estimatedQuantity == Some(n))
      && ("estimatedQuantity" in raw && raw["estimatedQuantity"] == Null ==> r.mapping.estimatedQuantity == None)
      && ("estimatedQuantity" !in raw ==> r.mapping.estimatedQuantity == r.extraction.estimatedAreaSqm)
      && ("estimatedAreaSqm" in raw && raw["estimatedAreaSqm"] == Num(n) ==> r.extraction.estimatedAreaSqm == Some(n))
      && ("estimatedAreaSqm" !in raw ==> r.extraction.estimatedAreaSqm == None)
  {
  }

  /** What a quantity given as something else becomes: one or zero, the number a text spells, or nothing. */
  lemma QuantityOf(c: Conversions, raw: Raw, key: string)
    requires Decompose(c, raw, key).Some? && "estimatedQuantity" in raw
    ensures var given, quantity := raw["estimatedQuantity"], Decompose(c, raw, key).value.mapping.estimatedQuantity;
      && (given == Bool(true) ==> quantity == Some(1.0)) && (given == Bool(false) ==> quantity == Some(0.0))
      && (given.Str? ==> quantity == c.parse(given.s))
      && (given.List? || given.Dict? ==> quantity == None)
  {
  }

  predicate Says(raw: Raw, key: string, text: string) { text != "" && key in raw && raw[key] == Str(text) }

  predicate Lists(raw: Raw, key: string, items: seq<Value>) { key in raw && raw[key] == List(items) }

  /** Each field is read from its own entry: the texts and lists of the output, ... */
  lemma TextsAreRead(c: Conversions, raw: Raw, key: string, t: string, items: seq<Value>)
    requires Decompose(c, raw, key).Some?
    ensures var r := Decompose(c, raw, key).value;
      && (Says(raw, "providerKey", t) ==> r.providerKey == t) && (Says(raw, "jobType", t) ==> r.jobType == t)
      && (Says(raw, "modelName", t) ==> r.modelName == t) && (Says(raw, "modelVersion", t) ==> r.modelVersion == t)
      && (Says(raw, "objectType", t) ==> r.detection.objectType == t)
      && (Says(raw, "estimatedUnit", t) ==> r.extraction.estimatedUnit == t && r.mapping.quantityUnit == t)
      && (Lists(raw, "materials", items) ==> r.extraction.materials == items)
      && (Lists(raw, "workflowSteps", items) ==> r.extraction.workflowSteps == items)
      && (Lists(raw, "validationWarnings", items) ==> r.mapping.validationWarnings == items)
  {
  }

  predicate Gives(raw: Raw, key: string, v: Value) { Truthy(v) && key in raw && raw[key] == v }

  /** ... and what is passed on as it is or as a number. */
  lemma ValuesAreRead(c: Conversions, raw: Raw, key: string, v: Value)
    requires Decompose(c, raw, key).Some?
    ensures var r := Decompose(c, raw, key).value;
      && (Gives(raw, "surfaceCondition", v) ==> r.detection.surfaceCondition == v)
      && (Gives(raw, "maskPolygon", v) ==> r.detection.maskPolygon == v)
      && (Gives(raw, "areaConfidence", v) && v.Num? ==> r.detection.areaConfidence == v.n)
      && (Gives(raw, "recommendedScope", v) ==> r.extraction.recommendedScope == v)
      && (Gives(raw, "estimatedTotalDays", v) && v.Num? ==> r.extraction.estimatedTotalDays == Some(v.n))
      && (Gives(raw, "laborHoursTotal", v) && v.Num? ==> r.extraction.laborHoursTotal == Some(v.n))
      && (Gives(raw, "catalogAttributes", v) && v.Dict? ==> r.extraction.catalogAttributes == v.entries)
      && (Gives(raw, "resolvedWorkTypeCode", v) ==> r.mapping.workTypeCode == v)
      && (Gives(raw, "analysisProfileCode", v) ==> r.mapping.profileCode == v)
      && (Gives(raw, "analysisProfileVersion", v) ==> r.mapping.profileVersion == v)
  {
  }

  predicate NoNumber(c: Conversions, v: Value) {
    match v
    case Str(s) => s != "" && c.parse(s) == None
    case List(items) => items != []
    case Dict(entries) => entries != []
    case _ => false
  }

  predicate NoSequence(v: Value) { v == Bool(true) || (v.Num? && v.n != 0.0) }

  predicate NoDictionary(c: Conversions, v: Value) {
    match v
    case Bool(b) => b
    case Num(n) => n != 0.0
    case Str(s) => s != ""
    case List(items) => items != [] && c.pairs(items) == None
    case _ => false
  }

  /** Decomposing raises if and only if the confidence is given and no number, or one of the lists is given as a number
      or true, or the attributes are given and no dictionary. */
  lemma DecomposeRaisesIff(c: Conversions, raw: Raw, key: string)
    ensures Decompose(c, raw, key).None? <==>
      || NoNumber(c, Get(raw, "areaConfidence")) || NoSequence(Get(raw, "materials"))
      || NoSequence(Get(raw, "workflowSteps")) || NoSequence(Get(raw, "validationWarnings"))
      || NoDictionary(c, Get(raw, "catalogAttributes"))
  {
    assert ToList(Get(raw, "materials")).None? <==> NoSequence(Get(raw, "materials"));
    assert ToList(Get(raw, "workflowSteps")).None? <==> NoSequence(Get(raw, "workflowSteps"));
    assert ToList(Get(raw, "validationWarnings")).None? <==> NoSequence(Get(raw, "validationWarnings"));
    assert ToDict(c, Get(raw, "catalogAttributes")).None? <==> NoDictionary(c, Get(raw, "catalogAttributes"));
  }
}
