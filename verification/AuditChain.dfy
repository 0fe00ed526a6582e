/** The tamper-evident audit log: the backfill, the append trigger and the verifier
    (apps/api/alembic/versions/20260420_11_add_audit_log_worm_chain.py).
    The digest is a parameter; what is assumed of it is said of the inputs at hand only. */
module AuditChain {
  import opened Base
  import opened Ordering

  type Hash = int

  const ZERO_HASH: Hash := 0

  /** The digested fields of one audit row. */
  datatype Content = Content(
    id: int, createdAt: int, actor: Option<int>, entityType: string, entity: Option<int>, action: string,
    before: Option<Json>, after: Option<Json>, trace: Option<string>, redaction: Option<Json>)

  datatype Row = Row(content: Content, position: int, prevHash: Hash, rowHash: Hash)

  type Log = seq<Row>

  /** A stored JSON null and an absent value print alike inside the digested object. */
  function Printed(value: Option<Json>): Option<Json> {
    if value == Some(Null) then None else value
  }

  /** What the digest gets to see of a row. */
  function Rendered(c: Content): Content {
    c.(before := Printed(c.before), after := Printed(c.after), redaction := Printed(c.redaction))
  }

  /** Both values are absent or a JSON null, or they are equal. */
  predicate SameJson(x: Option<Json>, y: Option<Json>) {
    x == y || (x in [None, Some(Null)] && y in [None, Some(Null)])
  }

  /** The two rows agree on every digested field, an absent JSON value and a JSON null being the same. */
  predicate SameFields(a: Content, b: Content) {
    && a.id == b.id && a.createdAt == b.createdAt && a.actor == b.actor
    && a.entityType == b.entityType && a.entity == b.entity && a.action == b.action && a.trace == b.trace
    && SameJson(a.before, b.before) && SameJson(a.after, b.after) && SameJson(a.redaction, b.redaction)
  }

  /** The digest sees two rows alike exactly when they agree on every field. */
  lemma RenderedAlikeIff(a: Content, b: Content)
    ensures Rendered(a) == Rendered(b) <==> SameFields(a, b)
  {
  }

  /** A function of the previous hash and of a row as rendered. */
  type Digest = (Hash, Content) -> Hash

  function RowDigest(digest: Digest, prev: Hash, content: Content): Hash {
    digest(prev, Rendered(content))
  }

  /** The hash that the row at place `i` of the ordered log has to build on. */
  function ExpectedPrev(log: Log, i: nat): Hash
    requires i <= |log|
  {
    if i == 0 then ZERO_HASH else log[i - 1].rowHash
  }

  function Tip(log: Log): Hash {
    ExpectedPrev(log, |log|)
  }

  // ----- the verifier

  predicate IsValid(digest: Digest, log: Log, i: nat)
    requires i < |log|
  {
    log[i].prevHash == ExpectedPrev(log, i) && log[i].rowHash == RowDigest(digest, ExpectedPrev(log, i), log[i].content)
  }

  datatype Verdict = Verdict(chainLength: nat, verifiedCount: nat, firstBreak: Option<int>)

  /** The place of the first invalid row, or the length of the log. */
  function FirstInvalid(digest: Digest, log: Log, i: nat): (r: nat)
    requires i <= |log|
    ensures i <= r <= |log|
    ensures forall j :: i <= j < r ==> IsValid(digest, log, j)
    ensures r < |log| ==> !IsValid(digest, log, r)
    decreases |log| - i
  {
    if i < |log| && IsValid(digest, log, i) then FirstInvalid(digest, log, i + 1) else i
  }

  function VerifyOrdered(digest: Digest, log: Log): Verdict {
    var i := FirstInvalid(digest, log, 0);
    Verdict(|log|, i, if i < |log| then Some(log[i].content.id) else None)
  }

  predicate ByPosition(a: Row, b: Row) { a.position <= b.position }

  /** The verifier reads the table in chain order, whatever order it is stored in. */
  function Verify(digest: Digest, table: seq<Row>): Verdict {
    VerifyOrdered(digest, Sort(table, ByPosition))
  }

  ghost predicate Chained(digest: Digest, log: Log) {
    forall i :: 0 <= i < |log| ==> IsValid(digest, log, i)
  }

  /** The verified count is the length of the longest prefix that is a chain. */
  lemma VerifiedCountIsLongestPrefix(digest: Digest, log: Log, k: nat)
    requires k <= |log|
    ensures Chained(digest, log[..k]) <==> k <= VerifyOrdered(digest, log).verifiedCount
  {
    var r := FirstInvalid(digest, log, 0);
    assert forall i :: 0 <= i < k ==> IsValid(digest, log[..k], i) == IsValid(digest, log, i);
    if r < k { assert !IsValid(digest, log[..k], r); }
  }

  /** The verdict does not depend on the order in which the table is stored. */
  lemma VerifyIgnoresOrder(digest: Digest, table: seq<Row>, log: Log)
    requires multiset(table) == multiset(log)
    requires forall i, j :: 0 <= i < j < |log| ==> log[i].position < log[j].position
    ensures Verify(digest, table) == VerifyOrdered(digest, log)
  {
    SortSorts(table, ByPosition);
    ClimbingIsSorted(Sort(table, ByPosition), log);
  }

  /** There is one way to put rows with distinct positions in order. */
  lemma {:induction false} ClimbingIsSorted(rows: seq<Row>, log: Log)
    requires multiset(rows) == multiset(log) && Sorted(rows, ByPosition)
    requires forall i, j :: 0 <= i < j < |log| ==> log[i].position < log[j].position
    ensures rows == log
    decreases |log|
  {
    SameMembers(rows, log);
    if log == [] {
    } else {
      SameFirst(rows, log);
      SameTails(rows, log);
      ClimbingIsSorted(rows[1..], log[1..]);
      assert rows == [rows[0]] + rows[1..] && log == [log[0]] + log[1..];
    }
  }

  lemma SameFirst(rows: seq<Row>, log: Log)
    requires rows != [] && log != [] && (forall row :: row in rows <==> row in log) && Sorted(rows, ByPosition)
    requires forall i, j :: 0 <= i < j < |log| ==> log[i].position < log[j].position
    ensures rows[0] == log[0]
  {
    assert rows[0] in log && log[0] in rows;
    var i :| 0 <= i < |log| && log[i] == rows[0];
    var j :| 0 <= j < |rows| && rows[j] == log[0];
    assert j == 0 || ByPosition(rows[0], rows[j]);
  }

  lemma SameTails(rows: seq<Row>, log: Log)
    requires rows != [] && log != [] && rows[0] == log[0] && multiset(rows) == multiset(log)
    ensures multiset(rows[1..]) == multiset(log[1..])
  {
    assert rows == [rows[0]] + rows[1..] && log == [log[0]] + log[1..];
    assert multiset(rows[1..]) == multiset(rows) - multiset{rows[0]};
    assert multiset(log[1..]) == multiset(log) - multiset{log[0]};
  }

  // ----- what is assumed of the digest

  ghost function Inputs(log: Log): set<(Hash, Content)> {
    set i | 0 <= i < |log| :: (log[i].prevHash, Rendered(log[i].content))
  }

  /** The digest tells these inputs apart and maps none of them to the zero hash. */
  ghost predicate CollisionFree(digest: Digest, inputs: set<(Hash, Content)>) {
    && (forall x, y :: x in inputs && y in inputs && digest(x.0, x.1) == digest(y.0, y.1) ==> x == y)
    && (forall x :: x in inputs ==> digest(x.0, x.1) != ZERO_HASH)
  }

  ghost predicate DistinctIds(log: Log) {
    forall i, j :: 0 <= i < j < |log| ==> log[i].content.id != log[j].content.id
  }

  lemma RowInput(digest: Digest, log: Log, i: nat)
    requires i < |log| && Chained(digest, log)
    ensures (ExpectedPrev(log, i), Rendered(log[i].content)) in Inputs(log)
    ensures log[i].rowHash == RowDigest(digest, ExpectedPrev(log, i), log[i].content)
  {
    assert IsValid(digest, log, i);
    assert (log[i].prevHash, Rendered(log[i].content)) in Inputs(log);
  }

  // ----- tampering

  /** A log in which row `i` carries other content but the hashes stored before. */
  function Altered(log: Log, i: nat, content: Content): Log
    requires i < |log|
  {
    log[i := log[i].(content := content)]
  }

  /** Changing one row of a chain makes exactly that row the first break, whichever field is changed, unless the only
      change is between an absent JSON value and a JSON null: then the verifier still passes every row. */
  lemma AlterationIsLocated(digest: Digest, log: Log, i: nat, content: Content)
    requires i < |log| && Chained(digest, log)
    requires CollisionFree(digest, Inputs(log) + {(ExpectedPrev(log, i), Rendered(content))})
    ensures VerifyOrdered(digest, Altered(log, i, content))
         == if !SameFields(content, log[i].content) then Verdict(|log|, i, Some(content.id))
            else Verdict(|log|, |log|, None)
    ensures forall j :: 0 <= j < |log| && j != i ==> IsValid(digest, Altered(log, i, content), j)
  {
    var bad := Altered(log, i, content);
    OthersStayValid(digest, log, i, content);
    AlteredRowValidIff(digest, log, i, content);
    if !SameFields(content, log[i].content) {
      FirstBreakAt(digest, bad, i);
    } else {
      assert FirstInvalid(digest, bad, 0) == |bad|;
    }
  }

  lemma OthersStayValid(digest: Digest, log: Log, i: nat, content: Content)
    requires i < |log| && Chained(digest, log)
    ensures forall j :: 0 <= j < |log| && j != i ==> IsValid(digest, Altered(log, i, content), j)
  {
    forall j | 0 <= j < |log| && j != i ensures IsValid(digest, Altered(log, i, content), j) {
      assert IsValid(digest, log, j);
    }
  }

  lemma AlteredRowValidIff(digest: Digest, log: Log, i: nat, content: Content)
    requires i < |log| && Chained(digest, log)
    requires CollisionFree(digest, Inputs(log) + {(ExpectedPrev(log, i), Rendered(content))})
    ensures IsValid(digest, Altered(log, i, content), i) <==> SameFields(content, log[i].content)
  {
    RenderedAlikeIff(content, log[i].content);
    RowInput(digest, log, i);
    assert IsValid(digest, log, i);
  }

  const SUBMITTED := Content(1, 0, None, "task", Some(7), "JOB_SUBMITTED", None, Some(Object(map[])), None, None)

  /** A row whose absent "before" is overwritten by a JSON null is another row, and no digest notices. */
  lemma NullGoesUnnoticed(digest: Digest)
    ensures var log := Backfilled(digest, [SUBMITTED]);
            var altered := Altered(log, 0, SUBMITTED.(before := Some(Null)));
            && log[0].content == SUBMITTED && altered != log
            && VerifyOrdered(digest, log) == VerifyOrdered(digest, altered) == Verdict(1, 1, None)
  {
    var log := Backfilled(digest, [SUBMITTED]);
    BackfillIsChained(digest, [SUBMITTED]);
    assert Sort([SUBMITTED], Earlier) == [SUBMITTED];
    LinkedRows(digest, ZERO_HASH, [SUBMITTED], 1);
    assert IsValid(digest, log, 0);
    assert IsValid(digest, Altered(log, 0, SUBMITTED.(before := Some(Null))), 0);
  }

  lemma FirstBreakAt(digest: Digest, log: Log, i: nat)
    requires i < |log| && !IsValid(digest, log, i)
    requires forall j :: 0 <= j < i ==> IsValid(digest, log, j)
    ensures VerifyOrdered(digest, log) == Verdict(|log|, i, Some(log[i].content.id))
  {
    var r := FirstInvalid(digest, log, 0);
    assert r <= i;
  }

  function Removed(log: Log, i: nat): Log
    requires i < |log|
  {
    log[..i] + log[i + 1..]
  }

  /** Neighbouring rows of a chain with distinct ids never share a hash. */
  lemma HashesMove(digest: Digest, log: Log, i: nat)
    requires i < |log| && Chained(digest, log) && DistinctIds(log) && CollisionFree(digest, Inputs(log))
    ensures log[i].rowHash != ExpectedPrev(log, i)
  {
    RowInput(digest, log, i);
    if i > 0 { RowInput(digest, log, i - 1); }
  }

  /** Removing a row makes its successor the first break; only removal of the last row goes unnoticed. */
  lemma RemovalIsLocated(digest: Digest, log: Log, i: nat)
    requires i < |log| && Chained(digest, log) && DistinctIds(log) && CollisionFree(digest, Inputs(log))
    ensures VerifyOrdered(digest, Removed(log, i))
         == Verdict(|log| - 1, i, if i + 1 < |log| then Some(log[i + 1].content.id) else None)
  {
    var cut := Removed(log, i);
    forall j | 0 <= j < i ensures IsValid(digest, cut, j) {
      assert IsValid(digest, log, j);
    }
    if i + 1 < |log| {
      assert IsValid(digest, log, i + 1);
      HashesMove(digest, log, i);
      assert ExpectedPrev(cut, i) == ExpectedPrev(log, i);
      FirstBreakAt(digest, cut, i);
    } else {
      assert FirstInvalid(digest, cut, 0) == i;
    }
  }

  ghost predicate SameRows(a: Log, b: Log) {
    && |a| == |b|
    && forall i :: 0 <= i < |a| ==>
         && SameFields(a[i].content, b[i].content)
         && a[i].prevHash == b[i].prevHash && a[i].rowHash == b[i].rowHash
  }

  /** Two verified logs that end in the same hash hold the same rows, field by field, one by one. */
  lemma {:induction false} TipFixesHistory(digest: Digest, a: Log, b: Log)
    requires Chained(digest, a) && Chained(digest, b) && Tip(a) == Tip(b)
    requires CollisionFree(digest, Inputs(a) + Inputs(b))
    ensures SameRows(a, b)
    decreases |a|
  {
    if a == [] || b == [] {
      TipOfSome(digest, a, b);
    } else {
      var m, n := |a| - 1, |b| - 1;
      LastRowsAgree(digest, a, b);
      PrefixInputs(a, m);
      PrefixInputs(b, n);
      PrefixChained(digest, a, m);
      PrefixChained(digest, b, n);
      TipFixesHistory(digest, a[..m], b[..n]);
      SameRowsLonger(a, b);
    }
  }

  lemma TipOfSome(digest: Digest, a: Log, b: Log)
    requires Chained(digest, a) && Chained(digest, b) && CollisionFree(digest, Inputs(a) + Inputs(b))
    ensures (Tip(a) == ZERO_HASH <==> a == []) && (Tip(b) == ZERO_HASH <==> b == [])
  {
    if a != [] { RowInput(digest, a, |a| - 1); }
    if b != [] { RowInput(digest, b, |b| - 1); }
  }

  lemma LastRowsAgree(digest: Digest, a: Log, b: Log)
    requires Chained(digest, a) && Chained(digest, b) && a != [] && b != [] && Tip(a) == Tip(b)
    requires CollisionFree(digest, Inputs(a) + Inputs(b))
    ensures var x, y := a[|a| - 1], b[|b| - 1];
            SameFields(x.content, y.content) && x.prevHash == y.prevHash && x.rowHash == y.rowHash
    ensures Tip(a[..|a| - 1]) == Tip(b[..|b| - 1])
  {
    RowInput(digest, a, |a| - 1);
    RowInput(digest, b, |b| - 1);
    RenderedAlikeIff(a[|a| - 1].content, b[|b| - 1].content);
    assert IsValid(digest, a, |a| - 1) && IsValid(digest, b, |b| - 1);
  }

  lemma SameRowsLonger(a: Log, b: Log)
    requires a != [] && b != [] && SameRows(a[..|a| - 1], b[..|b| - 1])
    requires var x, y := a[|a| - 1], b[|b| - 1];
             SameFields(x.content, y.content) && x.prevHash == y.prevHash && x.rowHash == y.rowHash
    ensures SameRows(a, b)
  {
    forall i | 0 <= i < |a| - 1 ensures a[i] == a[..|a| - 1][i] && b[i] == b[..|b| - 1][i] {
    }
  }

  /** Conversely, the fields of its rows determine every hash in a chain. */
  lemma {:induction false} RowsFixTip(digest: Digest, a: Log, b: Log)
    requires Chained(digest, a) && Chained(digest, b) && |a| == |b|
    requires forall i :: 0 <= i < |a| ==> SameFields(a[i].content, b[i].content)
    ensures Tip(a) == Tip(b) && SameRows(a, b)
    decreases |a|
  {
    if a == [] {
    } else {
      var n := |a| - 1;
      PrefixChained(digest, a, n);
      PrefixChained(digest, b, n);
      RowsFixTip(digest, a[..n], b[..n]);
      RenderedAlikeIff(a[n].content, b[n].content);
      assert IsValid(digest, a, n) && IsValid(digest, b, n);
      SameRowsLonger(a, b);
    }
  }

  lemma PrefixInputs(log: Log, k: nat)
    requires k <= |log|
    ensures Inputs(log[..k]) <= Inputs(log)
  {
    forall i | 0 <= i < k ensures (log[i].prevHash, Rendered(log[i].content)) in Inputs(log) {
    }
  }

  lemma PrefixChained(digest: Digest, log: Log, k: nat)
    requires k <= |log| && Chained(digest, log)
    ensures Chained(digest, log[..k])
  {
    forall i | 0 <= i < k ensures IsValid(digest, log[..k], i) {
      assert IsValid(digest, log, i);
    }
  }

  // ----- building the chain

  predicate Earlier(a: Content, b: Content) {
    a.createdAt < b.createdAt || (a.createdAt == b.createdAt && a.id <= b.id)
  }

  /** The recursive query that links rows already in order, the first one at `position`. */
  function Linked(digest: Digest, prev: Hash, contents: seq<Content>, position: int): Log
    decreases contents
  {
    if contents == [] then []
    else
      var hash := RowDigest(digest, prev, contents[0]);
      [Row(contents[0], position, prev, hash)] + Linked(digest, hash, contents[1..], position + 1)
  }

  function Backfilled(digest: Digest, contents: seq<Content>): Log {
    Linked(digest, ZERO_HASH, Sort(contents, Earlier), 1)
  }

  function Contents(log: Log): seq<Content> {
    seq(|log|, i requires 0 <= i < |log| => log[i].content)
  }

  lemma {:induction false} LinkedRows(digest: Digest, prev: Hash, contents: seq<Content>, position: int)
    ensures var log := Linked(digest, prev, contents, position);
            && |log| == |contents|
            && (forall i :: 0 <= i < |log| ==>
                  && log[i].content == contents[i] && log[i].position == position + i
                  && log[i].prevHash == (if i == 0 then prev else log[i - 1].rowHash)
                  && log[i].rowHash == RowDigest(digest, log[i].prevHash, contents[i]))
    decreases contents
  {
    if contents == [] {
    } else {
      LinkedRows(digest, RowDigest(digest, prev, contents[0]), contents[1..], position + 1);
    }
  }

  /** The backfill chains every existing row once, in creation order, at positions 1, 2, 3 and so on. */
  lemma BackfillIsChained(digest: Digest, contents: seq<Content>)
    ensures var log := Backfilled(digest, contents);
            && Chained(digest, log)
            && multiset(Contents(log)) == multiset(contents) && Sorted(Contents(log), Earlier)
            && (forall i, j :: 0 <= i < j < |log| ==>
                  || log[i].content.createdAt < log[j].content.createdAt
                  || (log[i].content.createdAt == log[j].content.createdAt && log[i].content.id <= log[j].content.id))
            && (forall i :: 0 <= i < |log| ==> log[i].position == i + 1)
  {
    var log := Backfilled(digest, contents);
    assert Transitive(Earlier) && Total(Earlier);
    SortSorts(contents, Earlier);
    LinkedRows(digest, ZERO_HASH, Sort(contents, Earlier), 1);
    assert Contents(log) == Sort(contents, Earlier);
    forall i, j | 0 <= i < j < |log| ensures Earlier(log[i].content, log[j].content) {
      assert Earlier(Contents(log)[i], Contents(log)[j]);
    }
  }

  /** The table, its position sequence and the trigger that runs before every insert. */
  class AuditLog {
    const digest: Digest
    var rows: seq<Row>
    var lastValue: int
    var isCalled: bool

    /** Positions climb and stay behind the sequence, and the rows are one chain. */
    ghost predicate Valid()
      reads this
    {
      && (forall i, j :: 0 <= i < j < |rows| ==> rows[i].position < rows[j].position)
      && (forall i :: 0 <= i < |rows| ==> rows[i].position < lastValue || (isCalled && rows[i].position == lastValue))
      && Chained(digest, rows)
    }

    /** Backfills the existing rows and sets the sequence past them. */
    constructor (digest: Digest, existing: seq<Content>)
      ensures Valid() && this.digest == digest
      ensures multiset(Contents(rows)) == multiset(existing) && Sorted(Contents(rows), Earlier)
    {
      this.digest := digest;
      rows := Backfilled(digest, existing);
      lastValue := if existing == [] then 1 else |existing|;
      isCalled := existing != [];
      new;
      BackfillIsChained(digest, existing);
      SortSorts(existing, Earlier);
      LinkedRows(digest, ZERO_HASH, Sort(existing, Earlier), 1);
      SameMembers(existing, Sort(existing, Earlier));
    }

    method NextPosition() returns (position: int)
      modifies this`lastValue, this`isCalled
      ensures position == (if old(isCalled) then old(lastValue) + 1 else old(lastValue))
      ensures lastValue == position && isCalled
    {
      if isCalled { lastValue := lastValue + 1; }
      isCalled := true;
      position := lastValue;
    }

    /** A transaction that drew a position and rolled back: the number is lost, the table unchanged. */
    method RolledBackInsert()
      requires Valid()
      modifies this`lastValue, this`isCalled
      ensures Valid()
    {
      var _ := NextPosition();
    }

    /** Appends one row: position, time and both hashes are the trigger's, the rest the caller's. */
    method Insert(content: Content, clock: int)
      requires Valid()
      modifies this
      ensures Valid()
      ensures |rows| == |old(rows)| + 1 && rows[..|old(rows)|] == old(rows)
      ensures rows[|old(rows)|].content == content.(createdAt := clock)
      ensures rows[|old(rows)|].prevHash == Tip(old(rows))
    {
      var position := NextPosition();
      var prev := LatestHash();
      var stamped := content.(createdAt := clock);
      rows := rows + [Row(stamped, position, prev, RowDigest(digest, prev, stamped))];
      forall i | 0 <= i < |rows| ensures IsValid(digest, rows, i) {
        if i < |old(rows)| { assert IsValid(digest, old(rows), i); }
      }
    }

    /** The hash of the row with the greatest position, or the zero hash of an empty table. */
    method LatestHash() returns (hash: Hash)
      requires forall i, j :: 0 <= i < j < |rows| ==> rows[i].position < rows[j].position
      ensures hash == Tip(rows)
    {
      if rows == [] {
        return ZERO_HASH;
      }
      var latest := rows[0];
      for i := 1 to |rows|
        invariant latest == rows[i - 1]
      {
        if latest.position < rows[i].position { latest := rows[i]; }
      }
      hash := latest.rowHash;
    }

    /** After any run of inserts, rolled back or not, the verifier passes every row. */
    method Check() returns (verdict: Verdict)
      requires Valid()
      ensures verdict == Verdict(|rows|, |rows|, None)
    {
      SortedStays(rows, ByPosition);
      verdict := Verify(digest, rows);
    }
  }
}
