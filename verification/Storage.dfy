/** The time-series store and the point-by-point batch write.

    A stored value is addressed by measurement, tags, time and field name, and
    the last write to an address wins; that is how the database merges points
    that share a measurement, a tag set and a time stamp. */
module Storage {
  import opened Domain

  datatype Cell = Cell(measurement: string, tags: map<string, string>, time: int, field: string)
  type Store = map<Cell, FieldValue>

  function Cells(p: MetricPoint): set<Cell> {
    set f | f in p.fields :: Cell(p.measurement, p.tags, p.time, f)
  }

  function Effect(p: MetricPoint): Store {
    map c | c in Cells(p) :: p.fields[c.field]
  }

  function Upsert(s: Store, p: MetricPoint): Store {
    s + Effect(p)
  }

  /** Every point upserted once, in order: what the processor is for. */
  function Apply(s: Store, pts: seq<MetricPoint>): Store {
    if pts == [] then s
    else Upsert(Apply(s, pts[..|pts| - 1]), pts[|pts| - 1])
  }

  function CellsOf(pts: seq<MetricPoint>): set<Cell> {
    set p, c | p in pts && c in Cells(p) :: c
  }

  function At(s: Store, c: Cell): Option<FieldValue> {
    if c in s then Some(s[c]) else None
  }

  /** The value the last point touching `c` gives it. */
  function LastWrite(pts: seq<MetricPoint>, c: Cell): Option<FieldValue> {
    if pts == [] then None
    else
      var last := pts[|pts| - 1];
      if c in Cells(last) then Some(last.fields[c.field])
      else LastWrite(pts[..|pts| - 1], c)
  }

  function OrElse<T>(a: Option<T>, b: Option<T>): Option<T> {
    if a.Some? then a else b
  }

  // ---- outcomes of single point writes ---------------------------------------

  /** A failed write may still have reached the database (`landed`). */
  datatype PointOutcome = Stored | Failed(error: Error, landed: bool)

  /** Points beyond the end of `outs` are stored. */
  function OutcomeAt(outs: seq<PointOutcome>, i: nat): PointOutcome {
    if i < |outs| then outs[i] else Stored
  }

  predicate Lands(o: PointOutcome) {
    o.Stored? || o.landed
  }

  predicate AllLand(n: nat, outs: seq<PointOutcome>) {
    forall i :: 0 <= i < n ==> Lands(OutcomeAt(outs, i))
  }

  /** The store after each point of `pts` met its outcome. */
  function Land(s: Store, pts: seq<MetricPoint>, outs: seq<PointOutcome>): Store {
    if pts == [] then s
    else
      var n := |pts| - 1;
      var before := Land(s, pts[..n], outs);
      if Lands(OutcomeAt(outs, n)) then Upsert(before, pts[n]) else before
  }

  function ErrorsOf(n: nat, outs: seq<PointOutcome>): seq<Error> {
    if n == 0 then []
    else
      var o := OutcomeAt(outs, n - 1);
      ErrorsOf(n - 1, outs) + if o.Failed? then [o.error] else []
  }

  /** The batch write reports an error only when every point failed. */
  predicate WriteFails(n: nat, outs: seq<PointOutcome>) {
    n > 0 && forall i :: 0 <= i < n ==> OutcomeAt(outs, i).Failed?
  }

  /** The point at i is the last one that touches the cell. */
  ghost predicate LastToucher(pts: seq<MetricPoint>, c: Cell, i: nat) {
    i < |pts| && c in Cells(pts[i]) && forall j :: i < j < |pts| ==> c !in Cells(pts[j])
  }

  /** Cells whose last writer in the batch did not land. */
  function Lost(pts: seq<MetricPoint>, outs: seq<PointOutcome>): set<Cell> {
    if pts == [] then {}
    else
      var n := |pts| - 1;
      var before := Lost(pts[..n], outs);
      if Lands(OutcomeAt(outs, n)) then before - Cells(pts[n]) else before + Cells(pts[n])
  }

  // ---- the algebra of last-write-wins ----------------------------------------

  lemma SameStore(a: Store, b: Store)
    requires forall c :: At(a, c) == At(b, c)
    ensures a == b
  {
    forall c | c in a ensures c in b && a[c] == b[c] {
      assert At(a, c) == At(b, c);
    }
    forall c | c in b ensures c in a {
      assert At(a, c) == At(b, c);
    }
  }

  lemma UpsertAt(s: Store, p: MetricPoint, c: Cell)
    ensures At(Upsert(s, p), c) == if c in Cells(p) then Some(p.fields[c.field]) else At(s, c)
  {
  }

  lemma {:induction false} ApplyAt(s: Store, pts: seq<MetricPoint>, c: Cell)
    ensures At(Apply(s, pts), c) == OrElse(LastWrite(pts, c), At(s, c))
  {
    if pts != [] {
      var n := |pts| - 1;
      ApplyAt(s, pts[..n], c);
      UpsertAt(Apply(s, pts[..n]), pts[n], c);
    }
  }

  lemma {:induction false} LastWriteExists(pts: seq<MetricPoint>, c: Cell)
    ensures LastWrite(pts, c).Some? <==> c in CellsOf(pts)
  {
    if pts != [] {
      var n := |pts| - 1;
      LastWriteExists(pts[..n], c);
      assert pts == pts[..n] + [pts[n]];
      assert forall p :: p in pts <==> p in pts[..n] || p == pts[n];
    }
  }

  lemma LastWriteSnoc(pts: seq<MetricPoint>, p: MetricPoint, c: Cell)
    ensures LastWrite(pts + [p], c) == if c in Cells(p) then Some(p.fields[c.field]) else LastWrite(pts, c)
  {
    assert (pts + [p])[..|pts|] == pts;
  }

  lemma {:induction false} LastWriteConcat(a: seq<MetricPoint>, b: seq<MetricPoint>, c: Cell)
    ensures LastWrite(a + b, c) == OrElse(LastWrite(b, c), LastWrite(a, c))
  {
    if b == [] {
      assert a + b == a;
    } else {
      var n := |b| - 1;
      assert (a + b)[..|a + b| - 1] == a + b[..n];
      LastWriteConcat(a, b[..n], c);
    }
  }

  lemma {:induction false} LastWritePrefix(pts: seq<MetricPoint>, n: nat, c: Cell)
    requires n <= |pts|
    ensures LastWrite(pts[..n], c).Some? ==> LastWrite(pts, c).Some?
  {
    assert pts == pts[..n] + pts[n..];
    LastWriteConcat(pts[..n], pts[n..], c);
  }

  lemma {:induction false} CellsOfConcat(a: seq<MetricPoint>, b: seq<MetricPoint>)
    ensures CellsOf(a + b) == CellsOf(a) + CellsOf(b)
  {
    assert forall p :: p in a + b <==> p in a || p in b;
  }

  /** A batch write touches only the cells of the batch, whatever fails. */
  lemma {:induction false} LandFrame(s: Store, pts: seq<MetricPoint>, outs: seq<PointOutcome>, c: Cell)
    requires LastWrite(pts, c).None?
    ensures At(Land(s, pts, outs), c) == At(s, c)
  {
    if pts != [] {
      var n := |pts| - 1;
      LandFrame(s, pts[..n], outs, c);
      UpsertAt(Land(s, pts[..n], outs), pts[n], c);
    }
  }

  /** A cell is lost exactly if the last point that touches it did not land. */
  lemma {:induction false} LostIff(pts: seq<MetricPoint>, outs: seq<PointOutcome>, c: Cell)
    ensures c in Lost(pts, outs) <==> exists i :: LastToucher(pts, c, i) && !Lands(OutcomeAt(outs, i))
  {
    if pts != [] {
      var n := |pts| - 1;
      LostIff(pts[..n], outs, c);
      if c in Cells(pts[n]) {
        assert LastToucher(pts, c, n);
      } else {
        forall i: nat ensures LastToucher(pts, c, i) <==> LastToucher(pts[..n], c, i) {
        }
      }
    }
  }

  /** Cell by cell, a batch write leaves exactly what upserting the whole batch
      leaves, except where the last writer of the cell did not land. */
  lemma {:induction false} LandAt(s: Store, pts: seq<MetricPoint>, outs: seq<PointOutcome>, c: Cell)
    ensures Lost(pts, outs) <= CellsOf(pts)
    ensures c !in Lost(pts, outs) ==> At(Land(s, pts, outs), c) == At(Apply(s, pts), c)
    ensures (forall i :: LastToucher(pts, c, i) ==> Lands(OutcomeAt(outs, i))) ==>
              At(Land(s, pts, outs), c) == At(Apply(s, pts), c)
  {
    LostIff(pts, outs, c);
    if pts != [] {
      var n := |pts| - 1;
      LandAt(s, pts[..n], outs, c);
      assert pts == pts[..n] + [pts[n]];
      CellsOfConcat(pts[..n], [pts[n]]);
      assert pts[n] in [pts[n]];
      assert Cells(pts[n]) <= CellsOf([pts[n]]);
      UpsertAt(Land(s, pts[..n], outs), pts[n], c);
      UpsertAt(Apply(s, pts[..n]), pts[n], c);
    }
  }

  /** A batch whose points all land is the batch upserted, whatever earlier
      attempts left in its cells. */
  lemma {:induction false} LandAll(s: Store, pts: seq<MetricPoint>, outs: seq<PointOutcome>)
    requires AllLand(|pts|, outs)
    ensures Lost(pts, outs) == {}
    ensures Land(s, pts, outs) == Apply(s, pts)
  {
    if pts != [] {
      var n := |pts| - 1;
      LandAll(s, pts[..n], outs);
      assert Lands(OutcomeAt(outs, n));
    }
  }

  function Landed(pts: seq<MetricPoint>, outs: seq<PointOutcome>): seq<MetricPoint> {
    if pts == [] then []
    else
      var n := |pts| - 1;
      Landed(pts[..n], outs) + if Lands(OutcomeAt(outs, n)) then [pts[n]] else []
  }

  lemma {:induction false} LandIsApplyLanded(s: Store, pts: seq<MetricPoint>, outs: seq<PointOutcome>)
    ensures Land(s, pts, outs) == Apply(s, Landed(pts, outs))
  {
    if pts != [] {
      var n := |pts| - 1;
      LandIsApplyLanded(s, pts[..n], outs);
      var before := Landed(pts[..n], outs);
      assert before + [] == before;
      assert (before + [pts[n]])[..|before|] == before;
    }
  }

  lemma SameLastWrites(s: Store, a: seq<MetricPoint>, b: seq<MetricPoint>)
    requires SameWrites(a, b)
    ensures Apply(s, a) == Apply(s, b)
  {
    forall c ensures At(Apply(s, a), c) == At(Apply(s, b), c) {
      ApplyAt(s, a, c);
      ApplyAt(s, b, c);
    }
    SameStore(Apply(s, a), Apply(s, b));
  }

  /** The batch write does what upserting the whole batch does, from any store. */
  ghost predicate Complete(pts: seq<MetricPoint>, outs: seq<PointOutcome>) {
    forall s: Store :: Land(s, pts, outs) == Apply(s, pts)
  }

  ghost predicate SameWrites(a: seq<MetricPoint>, b: seq<MetricPoint>) {
    forall c :: LastWrite(a, c) == LastWrite(b, c)
  }

  lemma CompleteIf(s: Store, pts: seq<MetricPoint>, outs: seq<PointOutcome>)
    requires SameWrites(Landed(pts, outs), pts)
    ensures Land(s, pts, outs) == Apply(s, pts)
  {
    LandIsApplyLanded(s, pts, outs);
    SameLastWrites(s, Landed(pts, outs), pts);
  }

  /** Exactly when a batch write is complete: in every cell, the last point that
      landed wrote the value of the last point. One lost point need not matter;
      losing the last writer of a new value always does. */
  lemma CompleteIff(pts: seq<MetricPoint>, outs: seq<PointOutcome>)
    ensures Complete(pts, outs) <==> SameWrites(Landed(pts, outs), pts)
  {
    if Complete(pts, outs) {
      assert Land(map[], pts, outs) == Apply(map[], pts);
      LandIsApplyLanded(map[], pts, outs);
      forall c ensures LastWrite(Landed(pts, outs), c) == LastWrite(pts, c) {
        ApplyAt(map[], Landed(pts, outs), c);
        ApplyAt(map[], pts, c);
      }
    }
    if SameWrites(Landed(pts, outs), pts) {
      forall s: Store ensures Land(s, pts, outs) == Apply(s, pts) {
        CompleteIf(s, pts, outs);
      }
    }
  }

  lemma {:induction false} ErrorsOfEmpty(n: nat, outs: seq<PointOutcome>)
    ensures |ErrorsOf(n, outs)| <= n
    ensures |ErrorsOf(n, outs)| == n <==> forall i :: 0 <= i < n ==> OutcomeAt(outs, i).Failed?
    ensures ErrorsOf(n, outs) == [] <==> forall i :: 0 <= i < n ==> OutcomeAt(outs, i).Stored?
  {
    if n > 0 {
      ErrorsOfEmpty(n - 1, outs);
      assert OutcomeAt(outs, n - 1).Failed? || OutcomeAt(outs, n - 1).Stored?;
    }
  }

  /** Exactly the points below n that failed, in order. */
  ghost predicate FailedPoints(n: nat, outs: seq<PointOutcome>, f: seq<nat>) {
    && (forall k, l :: 0 <= k < l < |f| ==> f[k] < f[l])
    && (forall i: nat :: i in f <==> i < n && OutcomeAt(outs, i).Failed?)
  }

  /** The errors are those of the failed points, in the order of the points. */
  ghost predicate ErrorsInOrder(n: nat, outs: seq<PointOutcome>, errors: seq<Error>) {
    exists f: seq<nat> :: FailedPoints(n, outs, f) && |f| == |errors|
                          && forall k :: 0 <= k < |f| && OutcomeAt(outs, f[k]).Failed? ==>
                                           errors[k] == OutcomeAt(outs, f[k]).error
  }

  lemma {:induction false} ErrorsOfInOrder(n: nat, outs: seq<PointOutcome>) returns (f: seq<nat>)
    ensures FailedPoints(n, outs, f) && |f| == |ErrorsOf(n, outs)|
    ensures forall k :: 0 <= k < |f| && OutcomeAt(outs, f[k]).Failed? ==>
                          ErrorsOf(n, outs)[k] == OutcomeAt(outs, f[k]).error
  {
    f := [];
    if n > 0 {
      f := ErrorsOfInOrder(n - 1, outs);
      forall k | 0 <= k < |f| ensures f[k] < n - 1 {
        assert f[k] in f;
      }
      if OutcomeAt(outs, n - 1).Failed? {
        f := f + [n - 1];
      }
    }
  }

  // ---- the code --------------------------------------------------------------

  datatype WriteResult = WriteResult(written: nat, errors: seq<Error>)

  class Influx {
    var store: Store

    constructor ()
      ensures store == map[]
    {
      store := map[];
    }

    /** `outs` is what the database answers to each point. */
    method WritePoints(points: seq<MetricPoint>, outs: seq<PointOutcome>)
      returns (result: WriteResult, err: Option<Error>)
      modifies this
      ensures store == Land(old(store), points, outs)
      ensures result.written + |result.errors| == |points|
      ensures ErrorsInOrder(|points|, outs, result.errors)
      ensures err.Some? <==> |points| > 0 && forall i :: 0 <= i < |points| ==> OutcomeAt(outs, i).Failed?
      ensures err.Some? ==> err.value == OutcomeAt(outs, 0).error
    {
      result := WriteResult(0, []);
      var i := 0;
      while i < |points|
        invariant 0 <= i <= |points|
        invariant store == Land(old(store), points[..i], outs)
        invariant result.written + |result.errors| == i
        invariant result.errors == ErrorsOf(i, outs)
        invariant result.errors != [] && result.written == 0 ==>
                    OutcomeAt(outs, 0).Failed? && result.errors[0] == OutcomeAt(outs, 0).error
      {
        assert points[..i + 1][..i] == points[..i];
        var answer := OutcomeAt(outs, i);
        if Lands(answer) {
          store := Upsert(store, points[i]);
        }
        ErrorsOfEmpty(i, outs);
        if answer.Failed? {
          result := result.(errors := result.errors + [answer.error]);
        } else {
          result := result.(written := result.written + 1);
        }
        i := i + 1;
      }
      assert points[..i] == points;
      ErrorsOfEmpty(|points|, outs);
      ghost var f := ErrorsOfInOrder(|points|, outs);
      if |result.errors| > 0 && result.written == 0 {
        return result, Some(result.errors[0]);
      }
      return result, None;
    }
  }
}
