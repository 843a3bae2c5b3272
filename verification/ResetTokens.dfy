/** The migration that replaces stored password-reset tokens by their digests. */
module ResetTokens {
  import opened Basics
  import opened Text

  type Time = int

  datatype Row = Row(token: string, userId: string, usedAt: Option<Time>, createdAt: Option<Time>)

  predicate HexDigit(c: char) { '0' <= c <= '9' || 'a' <= c <= 'f' || 'A' <= c <= 'F' }

  predicate LowerHexDigit(c: char) { '0' <= c <= '9' || 'a' <= c <= 'f' }

  predicate LooksLikeSha256Hex(s: string) { |s| == 64 && forall i :: 0 <= i < |s| ==> HexDigit(s[i]) }

  predicate LowerHex(s: string) { |s| == 64 && forall i :: 0 <= i < |s| ==> LowerHexDigit(s[i]) }

  /** `sha` stands for SHA-256 in hexadecimal: all that is known of it is the form of its results. */
  ghost predicate DigestForm(sha: string -> string) { forall s :: LowerHex(sha(s)) }

  function Digest(sha: string -> string, token: string): string {
    if LooksLikeSha256Hex(token) then Lower(token) else sha(token)
  }

  lemma DigestTwice(sha: string -> string, token: string)
    requires DigestForm(sha)
    ensures LowerHex(Digest(sha, token))
    ensures Digest(sha, Digest(sha, token)) == Digest(sha, token)
  {
    var d := Digest(sha, token);
    assert LowerHex(d);
    assert LooksLikeSha256Hex(d);
    assert forall i :: 0 <= i < |d| ==> LowerHexDigit(d[i]) && LowerChar(d[i]) == d[i];
    assert Lower(d) == d;
  }

  // ---------------------------------------------------------------------------
  // What the migration makes of the table
  // ---------------------------------------------------------------------------

  function CreatedAt(r: Row, now: Time): Time { if r.createdAt.Some? then r.createdAt.value else now }

  ghost predicate Rival(rows: seq<Row>, user: string, j: int) {
    0 <= j < |rows| && rows[j].usedAt.None? && rows[j].userId == user
  }

  /** Row i is its user's newest unused row; the first one read, on ties. */
  ghost predicate Kept(rows: seq<Row>, now: Time, i: int) {
    && 0 <= i < |rows| && rows[i].usedAt.None?
    && forall j :: Rival(rows, rows[i].userId, j) ==>
         || CreatedAt(rows[j], now) < CreatedAt(rows[i], now)
         || (CreatedAt(rows[j], now) == CreatedAt(rows[i], now) && i <= j)
  }

  ghost function HardenedRow(rows: seq<Row>, sha: string -> string, now: Time, i: nat): Row
    requires i < |rows|
  {
    Row(Digest(sha, rows[i].token), rows[i].userId,
        if rows[i].usedAt.None? && !Kept(rows, now, i) then Some(now) else rows[i].usedAt,
        rows[i].createdAt)
  }

  /** The first n rows hardened, the others as they were. */
  ghost function HardenedUpTo(rows: seq<Row>, sha: string -> string, now: Time, n: nat): seq<Row> {
    seq(|rows|, i requires 0 <= i < |rows| => if i < n then HardenedRow(rows, sha, now, i) else rows[i])
  }

  ghost function Hardened(rows: seq<Row>, sha: string -> string, now: Time): seq<Row> {
    HardenedUpTo(rows, sha, now, |rows|)
  }

  /** The primary key. */
  ghost predicate UniqueTokens(rows: seq<Row>) {
    forall i, j :: 0 <= i < j < |rows| ==> rows[i].token != rows[j].token
  }

  /** The digest tells the stored tokens apart. */
  ghost predicate DigestsDiffer(rows: seq<Row>, sha: string -> string) {
    forall i, j :: 0 <= i < j < |rows| ==> Digest(sha, rows[i].token) != Digest(sha, rows[j].token)
  }

  /** At most one unused row per user: the partial unique index can be created. */
  ghost predicate OneUnusedPerUser(rows: seq<Row>) {
    forall i, j :: 0 <= i < j < |rows| && rows[i].usedAt.None? && rows[j].usedAt.None? ==>
      rows[i].userId != rows[j].userId
  }

  // ---------------------------------------------------------------------------
  // The program
  // ---------------------------------------------------------------------------

  /** The columns an UPDATE sets. */
  datatype Values = Values(token: Option<string>, usedAt: Option<Time>)

  function Assigned(r: Row, v: Values): Row {
    r.(token := if v.token.Some? then v.token.value else r.token,
       usedAt := if v.usedAt.Some? then v.usedAt else r.usedAt)
  }

  /** UPDATE … WHERE token = … */
  function Updated(rows: seq<Row>, token: string, v: Values): seq<Row> {
    seq(|rows|, i requires 0 <= i < |rows| => if rows[i].token == token then Assigned(rows[i], v) else rows[i])
  }

  class TokenTable {
    var rows: seq<Row>

    constructor (rows: seq<Row>)
      ensures this.rows == rows
    {
      this.rows := rows;
    }

    /** Refused, and without effect, if it would break the primary key. */
    method Update(token: string, v: Values) returns (ok: bool)
      modifies this
      ensures ok == UniqueTokens(Updated(old(rows), token, v))
      ensures rows == if ok then Updated(old(rows), token, v) else old(rows)
    {
      var next := Updated(rows, token, v);
      ok := Distinct(next);
      if ok { rows := next; }
    }
  }

  method Distinct(rows: seq<Row>) returns (b: bool)
    ensures b == UniqueTokens(rows)
  {
    b := forall i, j :: 0 <= i < j < |rows| ==> rows[i].token != rows[j].token;
  }

  /** Some unused row of the user has been read. */
  ghost predicate Seen(rows: seq<Row>, user: string, n: nat) {
    exists j :: j < n && Rival(rows, user, j)
  }

  /** The first n rows' best candidate of a user. */
  ghost predicate BestOf(rows: seq<Row>, now: Time, user: string, n: nat, k: int) {
    && k < n && Rival(rows, user, k)
    && forall j :: j < n && Rival(rows, user, j) ==>
         || CreatedAt(rows[j], now) < CreatedAt(rows[k], now)
         || (CreatedAt(rows[j], now) == CreatedAt(rows[k], now) && k <= j)
  }

  ghost predicate Knows(rows: seq<Row>, now: Time, n: nat, user: string, tokens: map<string, string>,
                        created: map<string, Time>)
  {
    && (user in tokens <==> user in created) && (user in tokens <==> Seen(rows, user, n))
    && (user in tokens ==> exists k :: BestOf(rows, now, user, n, k)
                                       && tokens[user] == rows[k].token && created[user] == CreatedAt(rows[k], now))
  }

  lemma KnowsStep(rows: seq<Row>, now: Time, n: nat, user: string,
                  tokens: map<string, string>, created: map<string, Time>,
                  tokens': map<string, string>, created': map<string, Time>)
    requires n < |rows| && Knows(rows, now, n, user, tokens, created)
    requires !Rival(rows, user, n) ==>
      (user in tokens' <==> user in tokens) && (user in created' <==> user in created)
      && (user in tokens ==> tokens'[user] == tokens[user] && created'[user] == created[user])
    requires Rival(rows, user, n) ==>
      var better := user !in created || CreatedAt(rows[n], now) > created[user];
      && user in tokens' && user in created'
      && (better ==> tokens'[user] == rows[n].token && created'[user] == CreatedAt(rows[n], now))
      && (!better ==> tokens'[user] == tokens[user] && created'[user] == created[user])
    ensures Knows(rows, now, n + 1, user, tokens', created')
  {
    if Rival(rows, user, n) {
      if user !in created || CreatedAt(rows[n], now) > created[user] {
        assert BestOf(rows, now, user, n + 1, n);
      } else {
        var k :| BestOf(rows, now, user, n, k) && tokens[user] == rows[k].token
                 && created[user] == CreatedAt(rows[k], now);
        assert BestOf(rows, now, user, n + 1, k);
      }
    } else {
      assert Seen(rows, user, n + 1) <==> Seen(rows, user, n);
      if user in tokens {
        var k :| BestOf(rows, now, user, n, k) && tokens[user] == rows[k].token
                 && created[user] == CreatedAt(rows[k], now);
        assert BestOf(rows, now, user, n + 1, k);
      }
    }
  }

  /** The first pass: the newest unused token of each user. */
  method NewestUnused(rows: seq<Row>, now: Time) returns (tokens: map<string, string>)
    requires UniqueTokens(rows)
    ensures forall i :: 0 <= i < |rows| && rows[i].usedAt.None? ==>
      rows[i].userId in tokens && (tokens[rows[i].userId] == rows[i].token <==> Kept(rows, now, i))
  {
    tokens := map[];
    var created: map<string, Time> := map[];
    var n := 0;
    while n < |rows|
      invariant 0 <= n <= |rows|
      invariant forall user :: Knows(rows, now, n, user, tokens, created)
    {
      var row := rows[n];
      ghost var t0, c0 := tokens, created;
      if row.usedAt.None? {
        var at := CreatedAt(row, now);
        if row.userId !in created || at > created[row.userId] {
          created := created[row.userId := at];
          tokens := tokens[row.userId := row.token];
        }
      }
      ghost var m := n + 1;
      forall user ensures Knows(rows, now, m, user, tokens, created) {
        assert Knows(rows, now, n, user, t0, c0);
        KnowsStep(rows, now, n, user, t0, c0, tokens, created);
      }
      n := n + 1;
    }
    forall i | 0 <= i < |rows| && rows[i].usedAt.None?
      ensures rows[i].userId in tokens && (tokens[rows[i].userId] == rows[i].token <==> Kept(rows, now, i))
    {
      KnowsAll(rows, now, i, tokens, created);
    }
  }

  lemma KnowsAll(rows: seq<Row>, now: Time, i: nat, tokens: map<string, string>, created: map<string, Time>)
    requires UniqueTokens(rows) && i < |rows| && rows[i].usedAt.None?
    requires Knows(rows, now, |rows|, rows[i].userId, tokens, created)
    ensures rows[i].userId in tokens && (tokens[rows[i].userId] == rows[i].token <==> Kept(rows, now, i))
  {
    var user := rows[i].userId;
    assert Rival(rows, user, i);
    var k :| BestOf(rows, now, user, |rows|, k) && tokens[user] == rows[k].token
             && created[user] == CreatedAt(rows[k], now);
    assert i < k ==> rows[i].token != rows[k].token;
    assert k < i ==> rows[k].token != rows[i].token;
    assert Kept(rows, now, i) <==> i == k by {
      if Kept(rows, now, i) { assert Rival(rows, user, k); }
    }
  }

  /** The digests of the first n tokens differ from each other and from the tokens still to come. */
  ghost predicate NoClash(rows: seq<Row>, sha: string -> string, now: Time, n: nat) {
    UniqueTokens(HardenedUpTo(rows, sha, now, n))
  }

  function Cell(rows: seq<Row>, sha: string -> string, n: nat, i: nat): string
    requires i < |rows|
  {
    if i < n then Digest(sha, rows[i].token) else rows[i].token
  }

  lemma ClashIsDigestClash(rows: seq<Row>, sha: string -> string, now: Time, n: nat)
    requires DigestForm(sha) && n < |rows| && NoClash(rows, sha, now, n) && !NoClash(rows, sha, now, n + 1)
    ensures !DigestsDiffer(rows, sha)
  {
    var before, after := HardenedUpTo(rows, sha, now, n), HardenedUpTo(rows, sha, now, n + 1);
    var i, j :| 0 <= i < j < |after| && after[i].token == after[j].token;
    assert before[i].token != before[j].token;
    assert after[i].token == Cell(rows, sha, n + 1, i) && after[j].token == Cell(rows, sha, n + 1, j);
    DigestTwice(sha, rows[i].token);
    DigestTwice(sha, rows[j].token);
    assert Digest(sha, rows[i].token) == Digest(sha, rows[j].token);
  }

  /** One update of the second pass turns exactly row n, and no other, into its hardened form. */
  lemma UpdateHitsOneRow(rows: seq<Row>, sha: string -> string, now: Time, n: nat, v: Values)
    requires n < |rows| && NoClash(rows, sha, now, n)
    requires Assigned(rows[n], v) == HardenedRow(rows, sha, now, n)
    ensures Updated(HardenedUpTo(rows, sha, now, n), rows[n].token, v) == HardenedUpTo(rows, sha, now, n + 1)
  {
    var before, after := HardenedUpTo(rows, sha, now, n), HardenedUpTo(rows, sha, now, n + 1);
    var got := Updated(before, rows[n].token, v);
    forall i | 0 <= i < |rows| ensures got[i] == after[i] {
      assert before[n] == rows[n];
      if i < n { assert before[i].token != before[n].token; }
      if n < i { assert before[n].token != before[i].token; }
    }
  }

  /** The migration, in its transaction: it goes through exactly when the digest tells the stored tokens apart,
      and otherwise leaves the table alone. */
  method Upgrade(table: TokenTable, sha: string -> string, now: Time) returns (ok: bool)
    requires UniqueTokens(table.rows) && DigestForm(sha)
    modifies table
    ensures ok <==> DigestsDiffer(old(table.rows), sha)
    ensures table.rows == if ok then Hardened(old(table.rows), sha, now) else old(table.rows)
  {
    var rows := table.rows;
    var newest := NewestUnused(rows, now);
    assert HardenedUpTo(rows, sha, now, 0) == rows;
    var n := 0;
    while n < |rows|
      invariant 0 <= n <= |rows|
      invariant table.rows == HardenedUpTo(rows, sha, now, n) && NoClash(rows, sha, now, n)
    {
      var row := rows[n];
      var digest := Digest(sha, row.token);
      var values := Values(None, None);
      if digest != row.token { values := values.(token := Some(digest)); }
      if row.usedAt.None? && (row.userId !in newest || newest[row.userId] != row.token) {
        values := values.(usedAt := Some(now));
      }
      UpdateHitsOneRow(rows, sha, now, n, values);
      if values != Values(None, None) {
        var done := table.Update(row.token, values);
        if !done {
          ClashIsDigestClash(rows, sha, now, n);
          table.rows := rows;
          return false;
        }
      } else {
        NothingToSet(table.rows, row.token);
      }
      n := n + 1;
    }
    assert DigestsDiffer(rows, sha) by {
      var all := Hardened(rows, sha, now);
      assert forall i :: 0 <= i < |rows| ==> all[i].token == Digest(sha, rows[i].token);
    }
    ok := true;
  }

  lemma NothingToSet(rows: seq<Row>, token: string)
    ensures Updated(rows, token, Values(None, None)) == rows
  {
  }

  // ---------------------------------------------------------------------------
  // What the result promises
  // ---------------------------------------------------------------------------

  /** Every user with unused rows has a newest one. */
  lemma {:induction false} KeptExists(rows: seq<Row>, now: Time, user: string, n: nat)
    requires 0 < n <= |rows| && Seen(rows, user, n)
    ensures exists k :: BestOf(rows, now, user, n, k)
  {
    var m := n - 1;
    if m > 0 && Seen(rows, user, m) {
      KeptExists(rows, now, user, m);
      var k :| BestOf(rows, now, user, m, k);
      if Rival(rows, user, m) && CreatedAt(rows[m], now) > CreatedAt(rows[k], now) {
        assert BestOf(rows, now, user, n, m);
      } else {
        assert BestOf(rows, now, user, n, k);
      }
    } else {
      assert BestOf(rows, now, user, n, m);
    }
  }

  /** Afterwards no raw token is left, no row has changed its owner or age or come back to life, the partial
      unique index can be created, and each user that had unused rows still has one: their newest. */
  lemma HardenedPromises(rows: seq<Row>, sha: string -> string, now: Time)
    requires DigestForm(sha)
    ensures var after := Hardened(rows, sha, now);
      && |after| == |rows|
      && (forall i :: 0 <= i < |rows| ==>
            && LowerHex(after[i].token)
            && after[i].userId == rows[i].userId && after[i].createdAt == rows[i].createdAt
            && (rows[i].usedAt.Some? ==> after[i].usedAt == rows[i].usedAt))
      && OneUnusedPerUser(after)
      && (forall i :: 0 <= i < |rows| && rows[i].usedAt.None? ==>
            exists k :: Rival(after, rows[i].userId, k) && CreatedAt(rows[i], now) <= CreatedAt(rows[k], now))
  {
    var after := Hardened(rows, sha, now);
    forall i | 0 <= i < |rows| ensures LowerHex(after[i].token) {
      DigestTwice(sha, rows[i].token);
    }
    forall i, j | 0 <= i < j < |after| && after[i].usedAt.None? && after[j].usedAt.None?
      ensures after[i].userId != after[j].userId
    {
      assert Kept(rows, now, i) && Kept(rows, now, j);
      var one, other := rows[i].userId, rows[j].userId;
      assert one == other ==> Rival(rows, one, j) && Rival(rows, other, i);
    }
    forall i | 0 <= i < |rows| && rows[i].usedAt.None?
      ensures exists k :: Rival(after, rows[i].userId, k) && CreatedAt(rows[i], now) <= CreatedAt(rows[k], now)
    {
      assert Rival(rows, rows[i].userId, i);
      assert Seen(rows, rows[i].userId, |rows|);
      KeptExists(rows, now, rows[i].userId, |rows|);
      var k :| BestOf(rows, now, rows[i].userId, |rows|, k);
      assert Kept(rows, now, k);
      assert Rival(after, rows[i].userId, k);
    }
  }

  /** Of two unused rows of one user the older one is used up, at the moment of the migration; of two of one age, the
      one read later. A row without a date counts as made at that moment. */
  lemma OlderIsUsedUp(rows: seq<Row>, sha: string -> string, now: Time, i: int, j: int)
    requires 0 <= i < j < |rows| && Rival(rows, rows[j].userId, i) && Rival(rows, rows[i].userId, j)
    ensures var after := Hardened(rows, sha, now);
      var one, other := rows[i].createdAt, rows[j].createdAt;
      && (one.Some? && other.Some? ==>
            if one.value < other.value then after[i].usedAt == Some(now) else after[j].usedAt == Some(now))
      && (one.None? && other.Some? ==>
            if now < other.value then after[i].usedAt == Some(now) else after[j].usedAt == Some(now))
      && (one.Some? && other.None? ==>
            if one.value < now then after[i].usedAt == Some(now) else after[j].usedAt == Some(now))
      && (one.None? && other.None? ==> after[j].usedAt == Some(now))
  {
  }

  /** Hardened rows are a fixed point: running the passes again, at any later time, changes nothing. */
  lemma HardenedTwice(rows: seq<Row>, sha: string -> string, now: Time, later: Time)
    requires DigestForm(sha)
    ensures Hardened(Hardened(rows, sha, now), sha, later) == Hardened(rows, sha, now)
  {
    var after := Hardened(rows, sha, now);
    HardenedPromises(rows, sha, now);
    forall i | 0 <= i < |after| ensures HardenedRow(after, sha, later, i) == after[i] {
      DigestTwice(sha, rows[i].token);
      if after[i].usedAt.None? {
        forall j | Rival(after, after[i].userId, j) ensures j == i {
          assert j < i || i < j || i == j;
        }
        assert Kept(after, later, i);
      }
    }
  }

  // ---------------------------------------------------------------------------
  // What becomes of a link that was sent out
  // ---------------------------------------------------------------------------

  /** Sixty-four digits, each 0 to 9, a to f or A to F. */
  ghost predicate SixtyFourHexDigits(s: string) {
    |s| == 64 && forall c :: c in s ==> '0' <= c <= '9' || 'a' <= c <= 'f' || 'A' <= c <= 'F'
  }

  /** The small letter of a capital from A to F; any other character itself. */
  predicate SameButForCase(lower: char, c: char) {
    if 'A' <= c <= 'F' then lower as int == c as int + 32 else lower == c
  }

  /** A stored token that is not sixty-four hexadecimal digits is hashed exactly as it stands; one that is keeps its
      digits, with A to F made small. */
  lemma TokenBecomes(rows: seq<Row>, sha: string -> string, now: Time, i: nat)
    requires i < |rows|
    ensures var after := Hardened(rows, sha, now)[i].token;
      && (!SixtyFourHexDigits(rows[i].token) ==> after == sha(rows[i].token))
      && (SixtyFourHexDigits(rows[i].token) ==>
            |after| == 64 && forall k :: 0 <= k < 64 ==> SameButForCase(after[k], rows[i].token[k]))
  {
    var token := rows[i].token;
    if LooksLikeSha256Hex(token) {
      assert SixtyFourHexDigits(token);
    } else if |token| == 64 {
      var k :| 0 <= k < 64 && !HexDigit(token[k]);
      assert token[k] in token;
    }
  }

  /** The rows that a link carrying this token finds: the service looks up the token's digest. */
  ghost predicate Redeems(rows: seq<Row>, sha: string -> string, link: string, i: int) {
    0 <= i < |rows| && rows[i].token == sha(link)
  }

  /** After a migration that went through, a link sent out before it finds exactly the row that it was sent out for:
      the one row that held its token, raw, or that held its digest already, in capitals or not. */
  lemma LinksStillRedeem(rows: seq<Row>, sha: string -> string, now: Time, link: string, i: nat)
    requires DigestForm(sha) && DigestsDiffer(rows, sha) && i < |rows|
    requires || (rows[i].token == link && !SixtyFourHexDigits(link))
             || (SixtyFourHexDigits(rows[i].token) && |sha(link)| == 64
                 && forall k :: 0 <= k < 64 ==> SameButForCase(sha(link)[k], rows[i].token[k]))
    ensures forall k :: Redeems(Hardened(rows, sha, now), sha, link, k) <==> k == i
  {
    var after := Hardened(rows, sha, now);
    TokenBecomes(rows, sha, now, i);
    if SixtyFourHexDigits(rows[i].token) {
      forall k | 0 <= k < 64 ensures after[i].token[k] == sha(link)[k] {
        assert SameButForCase(after[i].token[k], rows[i].token[k]);
      }
      assert after[i].token == sha(link);
    }
    forall k | Redeems(after, sha, link, k) ensures k == i {
      assert after[k].token == Digest(sha, rows[k].token) && after[i].token == Digest(sha, rows[i].token);
    }
  }

  /** A row that held its token raw is found by its own link if and only if the token was not taken for a digest: sixty-
      four hexadecimal digits that are not their own digest make the link a dead one. */
  lemma RawLinkRedeemsIff(rows: seq<Row>, sha: string -> string, now: Time, i: nat)
    requires DigestForm(sha) && i < |rows|
    ensures var token := rows[i].token;
      Redeems(Hardened(rows, sha, now), sha, token, i)
      <==> (SixtyFourHexDigits(token) ==> forall k :: 0 <= k < 64 ==> SameButForCase(sha(token)[k], token[k]))
  {
    var token, after := rows[i].token, Hardened(rows, sha, now)[i].token;
    TokenBecomes(rows, sha, now, i);
    assert LowerHex(sha(token));
    if SixtyFourHexDigits(token) && forall k :: 0 <= k < 64 ==> SameButForCase(sha(token)[k], token[k]) {
      forall k | 0 <= k < 64 ensures after[k] == sha(token)[k] {
        assert SameButForCase(after[k], token[k]);
      }
      assert after == sha(token);
    }
  }

  /** The migration refuses a table exactly when two stored tokens would end up alike: two raw ones of one digest, a
      raw one and its own digest, or two spellings of one digest. */
  lemma RefusedIff(rows: seq<Row>, sha: string -> string, now: Time)
    requires DigestForm(sha)
    ensures DigestsDiffer(rows, sha) <==> UniqueTokens(Hardened(rows, sha, now))
  {
    var after := Hardened(rows, sha, now);
    assert forall i :: 0 <= i < |rows| ==> after[i].token == Digest(sha, rows[i].token);
  }
}
