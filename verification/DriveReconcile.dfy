/** `reconcile_drives`: matching the optical drives a host scan found to the rows known so far. */
module DriveReconcile {
  import opened Options

  type RowId = nat

  datatype Lifecycle = Detected | Ignored | Enrolled
  datatype Identity = ById | ByPort

  datatype Row = Row(lifecycle: Lifecycle, identity: Option<Identity>, byId: Option<string>, serial: Option<string>,
                     port: Option<string>, device: string, model: string, present: bool, lastSeen: Option<int>)

  datatype Scanned = Scanned(device: string, model: string, byId: Option<string>, serial: Option<string>, port: string)

  type Rows = map<RowId, Row>

  // ----- the two dictionaries ------------------------------------------------------------------

  /** `by_id` and `by_port`, built once before the loop. */
  datatype Index = Index(byId: map<string, RowId>, byPort: map<string, RowId>)

  predicate HasName(row: Row, name: string) { row.byId == Some(name) }

  predicate HasPort(row: Row, port: string) { row.port == Some(port) && row.byId.None? }

  predicate Indexes(ix: Index, rows: Rows) {
    && (forall name | name in ix.byId :: ix.byId[name] in rows && HasName(rows[ix.byId[name]], name))
    && (forall port | port in ix.byPort :: ix.byPort[port] in rows && HasPort(rows[ix.byPort[port]], port))
    && (forall r | r in rows && rows[r].byId.Some? :: rows[r].byId.value in ix.byId)
    && (forall r | r in rows && rows[r].byId.None? && rows[r].port.Some? :: rows[r].port.value in ix.byPort)
  }

  function Match(ix: Index, d: Scanned): Option<RowId> {
    if d.byId.Some? && d.byId.value in ix.byId then Some(ix.byId[d.byId.value])
    else if d.port in ix.byPort then Some(ix.byPort[d.port])
    else None
  }

  // ----- what the pass writes ------------------------------------------------------------------

  /** `_apply_scan`, and presence for rows without a ripper. */
  function Applied(row: Row, d: Scanned, now: int): Row {
    var facts := row.(device := d.device, model := d.model, port := Some(d.port));
    var known :=
      if d.byId.Some? then facts.(byId := d.byId, serial := d.serial, identity := Some(ById))
      else if row.identity.None? then facts.(identity := Some(ByPort))
      else facts;
    if row.lifecycle == Enrolled then known else known.(present := true, lastSeen := Some(now))
  }

  const FRESH := Row(Detected, None, None, None, None, "", "", true, None)

  /** The row scanned drive `m` is applied to: a known one, or the next new one. */
  function Place(ix: Index, d: Scanned, next: RowId, m: nat): RowId {
    if Match(ix, d).Some? then Match(ix, d).value else next + m
  }

  function RowAt(rows: Rows, r: RowId): Row {
    if r in rows then rows[r] else FRESH
  }

  /** The rows after the scan's drives were applied in order. */
  function Work(rows: Rows, ix: Index, scan: seq<Scanned>, next: RowId, now: int): Rows {
    if scan == [] then rows
    else
      var m := |scan| - 1;
      var before := Work(rows, ix, scan[..m], next, now);
      var r := Place(ix, scan[m], next, m);
      before[r := Applied(RowAt(before, r), scan[m], now)]
  }

  function Seen(ix: Index, scan: seq<Scanned>, next: RowId): set<RowId> {
    set m | 0 <= m < |scan| :: Place(ix, scan[m], next, m)
  }

  predicate Prunable(row: Row, cutoff: int) {
    row.lifecycle == Detected && row.lastSeen.Some? && row.lastSeen.value < cutoff
  }

  /** Rows the scan did not see are marked absent or pruned; enrolled ones are left to their ripper. */
  function Settled(rows: Rows, seen: set<RowId>, cutoff: int): Rows {
    map r | r in rows && (r in seen || !Prunable(rows[r], cutoff)) ::
      if r in seen || rows[r].lifecycle == Enrolled then rows[r] else rows[r].(present := false)
  }

  function Reconciled(rows: Rows, ix: Index, scan: seq<Scanned>, next: RowId, now: int, cutoff: int): Rows {
    Settled(Work(rows, ix, scan, next, now), Seen(ix, scan, next), cutoff)
  }

  predicate Below(rows: Rows, next: RowId) {
    forall r | r in rows :: r < next
  }

  // ----- the pass ------------------------------------------------------------------------------

  method BuildIndex(rows: Rows) returns (ix: Index)
    ensures Indexes(ix, rows)
  {
    ix := Index(map[], map[]);
    var left := rows.Keys;
    while left != {}
      invariant left <= rows.Keys
      invariant forall name | name in ix.byId :: ix.byId[name] in rows && HasName(rows[ix.byId[name]], name)
      invariant forall port | port in ix.byPort :: ix.byPort[port] in rows && HasPort(rows[ix.byPort[port]], port)
      invariant forall r | r in rows && r !in left && rows[r].byId.Some? :: rows[r].byId.value in ix.byId
      invariant forall r | r in rows && r !in left && rows[r].byId.None? && rows[r].port.Some? :: rows[r].port.value in ix.byPort
      decreases |left|
    {
      var r :| r in left;
      if rows[r].byId.Some? { ix := ix.(byId := ix.byId[rows[r].byId.value := r]); }
      else if rows[r].port.Some? { ix := ix.(byPort := ix.byPort[rows[r].port.value := r]); }
      left := left - {r};
    }
  }

  method ApplyAll(rows: Rows, ix: Index, scan: seq<Scanned>, next: RowId, now: int) returns (work: Rows, seen: set<RowId>)
    ensures work == Work(rows, ix, scan, next, now) && seen == Seen(ix, scan, next)
  {
    work := rows;
    seen := {};
    for m := 0 to |scan|
      invariant work == Work(rows, ix, scan[..m], next, now) && seen == Seen(ix, scan[..m], next)
    {
      assert scan[..m + 1][..m] == scan[..m];
      SeenGrows(ix, scan, next, m);
      var found := Match(ix, scan[m]);
      var r := if found.Some? then found.value else next + m;
      work := work[r := Applied(if r in work then work[r] else FRESH, scan[m], now)];
      seen := seen + {r};
    }
    assert scan[..|scan|] == scan;
  }

  /** The rows once the loop has been over all but `left`. */
  function SettledBut(rows: Rows, seen: set<RowId>, cutoff: int, left: set<RowId>): Rows {
    Settled(rows, seen + left, cutoff)
  }

  lemma SettleOne(rows: Rows, seen: set<RowId>, cutoff: int, left: set<RowId>, r: RowId)
    requires r in left && r in rows
    ensures var before, after := SettledBut(rows, seen, cutoff, left), SettledBut(rows, seen, cutoff, left - {r});
      && r in before && before[r] == rows[r] && before.Keys <= rows.Keys
      && after == if r in seen || rows[r].lifecycle == Enrolled then before
                  else if Prunable(rows[r], cutoff) then before - {r}
                  else before[r := rows[r].(present := false)]
  {
  }

  /** One row: left alone, pruned, or marked absent. */
  method SettleRow(work: Rows, seen: set<RowId>, out: Rows, left: set<RowId>, r: RowId, cutoff: int) returns (out': Rows, pruned: nat)
    requires r in left && left <= work.Keys && out == SettledBut(work, seen, cutoff, left)
    ensures out' == SettledBut(work, seen, cutoff, left - {r})
    ensures |work.Keys - out'.Keys| == |work.Keys - out.Keys| + pruned
  {
    SettleOne(work, seen, cutoff, left, r);
    if r in seen || work[r].lifecycle == Enrolled { return out, 0; }
    if Prunable(work[r], cutoff) {
      PrunedOne(work, out, r);
      return out - {r}, 1;
    }
    SameKeys(out, r, work[r].(present := false));
    return out[r := work[r].(present := false)], 0;
  }

  method Settle(work: Rows, seen: set<RowId>, cutoff: int) returns (out: Rows, pruned: nat)
    ensures out == Settled(work, seen, cutoff) && pruned == |work.Keys - out.Keys|
  {
    pruned := 0;
    out := work;
    var left := work.Keys;
    NothingSettled(work, seen, cutoff);
    while left != {}
      invariant left <= work.Keys && out == SettledBut(work, seen, cutoff, left)
      invariant pruned == |work.Keys - out.Keys|
      decreases |left|
    {
      var r :| r in left;
      var gone;
      out, gone := SettleRow(work, seen, out, left, r, cutoff);
      pruned := pruned + gone;
      left := left - {r};
    }
    assert seen + {} == seen;
  }

  lemma NothingSettled(work: Rows, seen: set<RowId>, cutoff: int)
    ensures SettledBut(work, seen, cutoff, work.Keys) == work && work.Keys - work.Keys == {}
  {
  }

  lemma PrunedOne(work: Rows, out: Rows, r: RowId)
    requires r in out && out.Keys <= work.Keys
    ensures |work.Keys - (out - {r}).Keys| == |work.Keys - out.Keys| + 1
  {
    assert work.Keys - (out - {r}).Keys == (work.Keys - out.Keys) + {r};
  }

  lemma SameKeys(out: Rows, r: RowId, row: Row)
    requires r in out
    ensures out[r := row].Keys == out.Keys
  {
  }

  method ReconcileDrives(rows: Rows, scan: seq<Scanned>, next: RowId, now: int, cutoff: int) returns (out: Rows, pruned: nat, ix: Index)
    requires Below(rows, next)
    ensures Indexes(ix, rows) && out == Reconciled(rows, ix, scan, next, now, cutoff)
    ensures pruned == |Work(rows, ix, scan, next, now).Keys - out.Keys|
  {
    ix := BuildIndex(rows);
    var work, seen := ApplyAll(rows, ix, scan, next, now);
    out, pruned := Settle(work, seen, cutoff);
  }

  lemma SeenGrows(ix: Index, scan: seq<Scanned>, next: RowId, m: nat)
    requires m < |scan|
    ensures Seen(ix, scan[..m + 1], next) == Seen(ix, scan[..m], next) + {Place(ix, scan[m], next, m)}
  {
    forall r ensures r in Seen(ix, scan[..m + 1], next) <==> r in Seen(ix, scan[..m], next) + {Place(ix, scan[m], next, m)} {
      if r in Seen(ix, scan[..m + 1], next) {
        var k :| 0 <= k < m + 1 && Place(ix, scan[..m + 1][k], next, k) == r;
        if k < m { assert scan[..m][k] == scan[k]; }
      }
      if r in Seen(ix, scan[..m], next) {
        var k :| 0 <= k < m && Place(ix, scan[..m][k], next, k) == r;
        assert scan[..m + 1][k] == scan[k];
      }
      assert scan[..m + 1][m] == scan[m];
    }
  }

  // ----- matching ------------------------------------------------------------------------------

  /** No row has the drive's link name: it is looked up by its port. */
  predicate Falls(ix: Index, d: Scanned) { d.byId.Some? ==> d.byId.value !in ix.byId }

  predicate Shares(ix: Index, a: Scanned, b: Scanned) {
    if Falls(ix, a) then Falls(ix, b) && a.port == b.port && a.port in ix.byPort else b.byId == a.byId
  }

  function PlaceOf(ix: Index, scan: seq<Scanned>, next: RowId, m: int): RowId
    requires 0 <= m < |scan|
  {
    Place(ix, scan[m], next, m)
  }

  /** Two scanned drives end up on the same row exactly when both match by the same link name, or both fall
      through to the same known port. */
  lemma SharedRowIff(rows: Rows, ix: Index, scan: seq<Scanned>, next: RowId, i: nat, j: nat)
    requires Indexes(ix, rows) && Below(rows, next) && i < |scan| && j < |scan| && i != j
    ensures PlaceOf(ix, scan, next, i) == PlaceOf(ix, scan, next, j) <==> Shares(ix, scan[i], scan[j])
  {
  }

  /** The matching is injective exactly when no two drives share. */
  lemma MatchInjective(rows: Rows, ix: Index, scan: seq<Scanned>, next: RowId)
    requires Indexes(ix, rows) && Below(rows, next)
    ensures (forall i, j | 0 <= i < j < |scan| :: PlaceOf(ix, scan, next, i) != PlaceOf(ix, scan, next, j))
       <==> (forall i, j | 0 <= i < j < |scan| :: !Shares(ix, scan[i], scan[j]))
  {
    forall i, j | 0 <= i < j < |scan|
      ensures PlaceOf(ix, scan, next, i) == PlaceOf(ix, scan, next, j) <==> Shares(ix, scan[i], scan[j])
    {
      SharedRowIff(rows, ix, scan, next, i, j);
    }
  }

  // ----- one row through a pass ------------------------------------------------------------------

  /** What the drives placed at `r` make of it, in order. */
  function Folded(rows: Rows, ix: Index, scan: seq<Scanned>, next: RowId, now: int, r: RowId): Row {
    if scan == [] then RowAt(rows, r)
    else
      var m := |scan| - 1;
      var before := Folded(rows, ix, scan[..m], next, now, r);
      if PlaceOf(ix, scan, next, m) == r then Applied(before, scan[m], now) else before
  }

  lemma SeenLast(ix: Index, scan: seq<Scanned>, next: RowId)
    requires scan != []
    ensures var m := |scan| - 1; Seen(ix, scan, next) == Seen(ix, scan[..m], next) + {PlaceOf(ix, scan, next, m)}
  {
    SeenGrows(ix, scan, next, |scan| - 1);
    assert scan[..|scan|] == scan;
  }

  lemma SeenBy(ix: Index, scan: seq<Scanned>, next: RowId, r: RowId)
    ensures r in Seen(ix, scan, next) <==> exists m :: 0 <= m < |scan| && PlaceOf(ix, scan, next, m) == r
  {
    if r in Seen(ix, scan, next) {
      var m :| 0 <= m < |scan| && Place(ix, scan[m], next, m) == r;
      assert PlaceOf(ix, scan, next, m) == r;
    }
    if m :| 0 <= m < |scan| && PlaceOf(ix, scan, next, m) == r {
      assert Place(ix, scan[m], next, m) == r;
    }
  }

  lemma {:induction false} UnseenFold(rows: Rows, ix: Index, scan: seq<Scanned>, next: RowId, now: int, r: RowId)
    requires r !in Seen(ix, scan, next)
    ensures Folded(rows, ix, scan, next, now, r) == RowAt(rows, r)
    decreases |scan|
  {
    if scan != [] {
      SeenLast(ix, scan, next);
      UnseenFold(rows, ix, scan[..|scan| - 1], next, now, r);
    }
  }

  /** The pass is, row by row, the fold of the drives placed there. */
  lemma {:induction false} WorkFolds(rows: Rows, ix: Index, scan: seq<Scanned>, next: RowId, now: int)
    ensures var w := Work(rows, ix, scan, next, now);
      w.Keys == rows.Keys + Seen(ix, scan, next) && forall r | r in w :: w[r] == Folded(rows, ix, scan, next, now, r)
    decreases |scan|
  {
    if scan != [] {
      var m := |scan| - 1;
      var before := Work(rows, ix, scan[..m], next, now);
      var r := PlaceOf(ix, scan, next, m);
      WorkFolds(rows, ix, scan[..m], next, now);
      SeenLast(ix, scan, next);
      if r !in before { UnseenFold(rows, ix, scan[..m], next, now, r); }
      assert RowAt(before, r) == Folded(rows, ix, scan[..m], next, now, r);
    }
  }

  /** A seen row of the result is its fold. */
  lemma SeenRow(rows: Rows, ix: Index, scan: seq<Scanned>, next: RowId, now: int, cutoff: int, m: nat)
    requires m < |scan|
    ensures var out := Reconciled(rows, ix, scan, next, now, cutoff);
      var r := PlaceOf(ix, scan, next, m);
      r in out && r in Seen(ix, scan, next) && out[r] == Folded(rows, ix, scan, next, now, r)
  {
    WorkFolds(rows, ix, scan, next, now);
    SeenBy(ix, scan, next, PlaceOf(ix, scan, next, m));
  }

  /** A row no drive matched is gone exactly when it is a detected one past the cut-off; else it is enrolled
      and as it was, or marked absent. */
  lemma UnseenRow(rows: Rows, ix: Index, scan: seq<Scanned>, next: RowId, now: int, cutoff: int, r: RowId)
    requires r !in Seen(ix, scan, next)
    ensures var out := Reconciled(rows, ix, scan, next, now, cutoff);
      && (r in out <==> r in rows && !(rows[r].lifecycle == Detected && rows[r].lastSeen.Some? && rows[r].lastSeen.value < cutoff))
      && (r in out ==> out[r] == if rows[r].lifecycle == Enrolled then rows[r] else rows[r].(present := false))
  {
    WorkFolds(rows, ix, scan, next, now);
    UnseenFold(rows, ix, scan, next, now, r);
  }

  /** At most one drive is placed at `r`, or only drives without link names are. */
  predicate OneKind(ix: Index, scan: seq<Scanned>, next: RowId, r: RowId) {
    forall i, j | 0 <= i < j < |scan| && PlaceOf(ix, scan, next, i) == r && PlaceOf(ix, scan, next, j) == r ::
      scan[i].byId.None? && scan[j].byId.None?
  }

  predicate LastAt(ix: Index, scan: seq<Scanned>, next: RowId, r: RowId, m: int) {
    && 0 <= m < |scan| && PlaceOf(ix, scan, next, m) == r
    && forall k | m < k < |scan| :: PlaceOf(ix, scan, next, k) != r
  }

  lemma AppliedOver(row: Row, a: Scanned, b: Scanned, now: int)
    requires a == b || (a.byId.None? && b.byId.None?)
    ensures Applied(Applied(row, a, now), b, now) == Applied(row, b, now)
  {
  }

  lemma OneKindFront(ix: Index, scan: seq<Scanned>, next: RowId, r: RowId)
    requires scan != [] && OneKind(ix, scan, next, r)
    ensures OneKind(ix, scan[..|scan| - 1], next, r)
  {
    var front := scan[..|scan| - 1];
    forall i, j | 0 <= i < j < |front| && PlaceOf(ix, front, next, i) == r && PlaceOf(ix, front, next, j) == r
      ensures front[i].byId.None? && front[j].byId.None?
    {
      assert PlaceOf(ix, scan, next, i) == r && PlaceOf(ix, scan, next, j) == r;
    }
  }

  /** Then the last of them decides. */
  lemma {:induction false} LastWins(rows: Rows, ix: Index, scan: seq<Scanned>, next: RowId, now: int, r: RowId) returns (m: int)
    requires r in Seen(ix, scan, next) && OneKind(ix, scan, next, r)
    ensures LastAt(ix, scan, next, r, m) && Folded(rows, ix, scan, next, now, r) == Applied(RowAt(rows, r), scan[m], now)
    decreases |scan|
  {
    var n := |scan| - 1;
    var front := scan[..n];
    SeenLast(ix, scan, next);
    OneKindFront(ix, scan, next, r);
    if PlaceOf(ix, scan, next, n) != r {
      m := LastWins(rows, ix, front, next, now, r);
      forall k | m < k < |scan| ensures PlaceOf(ix, scan, next, k) != r {
        if k < n { assert PlaceOf(ix, front, next, k) != r; }
      }
    } else {
      m := n;
      if r in Seen(ix, front, next) {
        var k := LastWins(rows, ix, front, next, now, r);
        assert PlaceOf(ix, scan, next, k) == r;
        AppliedOver(RowAt(rows, r), scan[k], scan[n], now);
      } else {
        UnseenFold(rows, ix, front, next, now, r);
      }
    }
  }

  /** The row shows the drive as the scan saw it, and as seen just now unless a ripper owns its presence. */
  predicate ShowsDrive(row: Row, d: Scanned, now: int) {
    && row.device == d.device && row.model == d.model && row.port == Some(d.port) && row.byId == d.byId
    && row.identity.Some? && (d.byId.Some? ==> row.identity == Some(ById) && row.serial == d.serial)
    && (row.lifecycle != Enrolled ==> row.present && row.lastSeen == Some(now))
  }

  lemma AppliedShows(row: Row, d: Scanned, now: int)
    requires d.byId.None? ==> row.byId.None?
    ensures ShowsDrive(Applied(row, d, now), d, now)
  {
  }

  /** After a pass every drive that shares its row with no other has a row that shows it. */
  lemma EveryDriveShown(rows: Rows, ix: Index, scan: seq<Scanned>, next: RowId, now: int, cutoff: int, m: nat)
    requires Indexes(ix, rows) && Below(rows, next) && m < |scan|
    requires forall k | 0 <= k < |scan| && k != m :: !Shares(ix, scan[m], scan[k])
    ensures var out := Reconciled(rows, ix, scan, next, now, cutoff);
      PlaceOf(ix, scan, next, m) in out && ShowsDrive(out[PlaceOf(ix, scan, next, m)], scan[m], now)
  {
    var r := PlaceOf(ix, scan, next, m);
    forall k | 0 <= k < |scan| && k != m ensures PlaceOf(ix, scan, next, k) != r {
      SharedRowIff(rows, ix, scan, next, m, k);
    }
    SeenRow(rows, ix, scan, next, now, cutoff, m);
    var last := LastWins(rows, ix, scan, next, now, r);
    assert last == m;
    AppliedShows(RowAt(rows, r), scan[m], now);
  }

  predicate SamePresence(a: Row, b: Row) { a.present == b.present && a.lastSeen == b.lastSeen }

  /** Whatever the scan, an enrolled or ignored row is never deleted and keeps its lifecycle, and presence is
      never written on an enrolled one. */
  lemma {:induction false} ProtectedRows(rows: Rows, ix: Index, scan: seq<Scanned>, next: RowId, now: int, cutoff: int, r: RowId)
    requires r in rows && rows[r].lifecycle != Detected
    ensures var w, out := Work(rows, ix, scan, next, now), Reconciled(rows, ix, scan, next, now, cutoff);
      && r in w && w[r].lifecycle == rows[r].lifecycle
      && r in out && out[r].lifecycle == rows[r].lifecycle
      && (rows[r].lifecycle == Enrolled ==> SamePresence(w[r], rows[r]) && SamePresence(out[r], rows[r]))
    decreases |scan|
  {
    if scan != [] { ProtectedRows(rows, ix, scan[..|scan| - 1], next, now, cutoff, r); }
  }

  /** Whatever the scan, no row changes its lifecycle or loses a link name, a new row is detected and present, and a
      row the scan met that no ripper owns is present and seen now. */
  lemma {:induction false} RowFacts(rows: Rows, ix: Index, scan: seq<Scanned>, next: RowId, now: int, r: RowId)
    requires r in Work(rows, ix, scan, next, now)
    ensures var row := Work(rows, ix, scan, next, now)[r];
      && (r in rows ==> row.lifecycle == rows[r].lifecycle && (rows[r].byId.Some? ==> row.byId.Some?))
      && (r !in rows ==> row.lifecycle == Detected)
      && (r !in rows || r in Seen(ix, scan, next) ==> row.lifecycle == Enrolled || (row.present && row.lastSeen == Some(now)))
    decreases |scan|
  {
    if scan != [] {
      var front := scan[..|scan| - 1];
      SeenLast(ix, scan, next);
      RowsStay(rows, ix, front, next, now);
      if r in Work(rows, ix, front, next, now) { RowFacts(rows, ix, front, next, now, r); }
    }
  }

  lemma {:induction false} RowsStay(rows: Rows, ix: Index, scan: seq<Scanned>, next: RowId, now: int)
    ensures rows.Keys <= Work(rows, ix, scan, next, now).Keys
    decreases |scan|
  {
    if scan != [] { RowsStay(rows, ix, scan[..|scan| - 1], next, now); }
  }

  /** A drive meets the row with its link name, else the row without one on its port, else it gets a new row. */
  lemma MatchExactly(rows: Rows, ix: Index, d: Scanned)
    requires Indexes(ix, rows)
    ensures Match(ix, d).Some? <==>
      (exists r | r in rows :: (d.byId.Some? && rows[r].byId == d.byId) || (rows[r].byId.None? && rows[r].port == Some(d.port)))
    ensures Match(ix, d).Some? ==>
      var r := Match(ix, d).value;
      && r in rows
      && if d.byId.Some? && exists q | q in rows :: rows[q].byId == d.byId then rows[r].byId == d.byId
         else rows[r].byId.None? && rows[r].port == Some(d.port)
  {
    if r :| r in rows && ((d.byId.Some? && rows[r].byId == d.byId) || (rows[r].byId.None? && rows[r].port == Some(d.port))) {
      assert rows[r].byId.Some? ==> rows[r].byId.value in ix.byId;
    }
  }

  // ----- unique names and ports ------------------------------------------------------------------

  /** udev gives a link name to one node only. */
  predicate DistinctNames(scan: seq<Scanned>) {
    forall i, j | 0 <= i < |scan| && 0 <= j < |scan| && i != j && scan[i].byId.Some? :: scan[j].byId != scan[i].byId
  }

  predicate UniqueNames(rows: Rows) {
    forall r, q | r in rows && q in rows && r != q && rows[r].byId.Some? :: rows[q].byId != rows[r].byId
  }

  predicate UniquePorts(rows: Rows) {
    forall r, q | r in rows && q in rows && r != q && rows[r].byId.None? && rows[q].byId.None? && rows[r].port.Some? ::
      rows[q].port != rows[r].port
  }

  predicate Known(rows: Rows) { UniqueNames(rows) && UniquePorts(rows) }

  /** Two drives without link names on one port no row has. */
  predicate Twins(ix: Index, scan: seq<Scanned>, i: int, j: int) {
    && 0 <= i < j < |scan| && scan[i].byId.None? && scan[j].byId.None?
    && scan[i].port == scan[j].port && scan[i].port !in ix.byPort
  }

  /** Where the link name of a row comes from: the row had it, or a drive that fell to the row brought it. */
  lemma {:induction false} NameSource(rows: Rows, ix: Index, scan: seq<Scanned>, next: RowId, now: int, r: RowId) returns (m: int)
    requires Indexes(ix, rows) && Below(rows, next)
    ensures var name := Folded(rows, ix, scan, next, now, r).byId;
      || name == RowAt(rows, r).byId
      || (RowAt(rows, r).byId.None? && 0 <= m < |scan| && PlaceOf(ix, scan, next, m) == r && scan[m].byId == name && Falls(ix, scan[m]))
    decreases |scan|
  {
    m := -1;
    if scan != [] {
      var n := |scan| - 1;
      m := NameSource(rows, ix, scan[..n], next, now, r);
      if m >= 0 && m < n { assert PlaceOf(ix, scan[..n], next, m) == PlaceOf(ix, scan, next, m); }
      if PlaceOf(ix, scan, next, n) == r && scan[n].byId.Some? { m := n; }
    }
  }

  /** Drive `m` has no link name, no row has its port, and the new row `r` is its. */
  predicate NewWithPort(ix: Index, scan: seq<Scanned>, next: RowId, r: RowId, port: Option<string>, m: int) {
    && 0 <= m < |scan| && r == next + m && PlaceOf(ix, scan, next, m) == r
    && Match(ix, scan[m]).None? && scan[m].byId.None? && port == Some(scan[m].port)
  }

  /** A port that a row without a link name shows: the row had it, or the row is new with it. */
  lemma {:induction false} PortSource(rows: Rows, ix: Index, scan: seq<Scanned>, next: RowId, now: int, r: RowId) returns (m: int)
    requires Indexes(ix, rows) && Below(rows, next) && (r in rows || r in Seen(ix, scan, next))
    ensures var row := Folded(rows, ix, scan, next, now, r);
      row.byId.None? ==>
        || (r in rows && row.port == rows[r].port && rows[r].byId.None?)
        || (r !in rows && NewWithPort(ix, scan, next, r, row.port, m))
    decreases |scan|
  {
    m := -1;
    if scan != [] {
      var n := |scan| - 1;
      SeenLast(ix, scan, next);
      if r in rows || r in Seen(ix, scan[..n], next) {
        m := PortSource(rows, ix, scan[..n], next, now, r);
        if m >= 0 && m < n { assert PlaceOf(ix, scan[..n], next, m) == PlaceOf(ix, scan, next, m); }
      } else {
        UnseenFold(rows, ix, scan[..n], next, now, r);
        m := n;
      }
    }
  }

  /** A row of the result says of names and ports what its fold says. */
  lemma ResultRow(rows: Rows, ix: Index, scan: seq<Scanned>, next: RowId, now: int, cutoff: int, r: RowId)
    requires r in Reconciled(rows, ix, scan, next, now, cutoff)
    ensures var out, row := Reconciled(rows, ix, scan, next, now, cutoff), Folded(rows, ix, scan, next, now, r);
      (r in rows || r in Seen(ix, scan, next)) && out[r].byId == row.byId && out[r].port == row.port
  {
    WorkFolds(rows, ix, scan, next, now);
  }

  lemma NamesStayUnique(rows: Rows, ix: Index, scan: seq<Scanned>, next: RowId, now: int, cutoff: int, r: RowId, q: RowId)
    requires Indexes(ix, rows) && Below(rows, next) && DistinctNames(scan) && UniqueNames(rows) && r != q
    requires var out := Reconciled(rows, ix, scan, next, now, cutoff); r in out && q in out && out[r].byId.Some?
    ensures Reconciled(rows, ix, scan, next, now, cutoff)[q].byId != Reconciled(rows, ix, scan, next, now, cutoff)[r].byId
  {
    ResultRow(rows, ix, scan, next, now, cutoff, r);
    ResultRow(rows, ix, scan, next, now, cutoff, q);
    var a := NameSource(rows, ix, scan, next, now, r);
    var b := NameSource(rows, ix, scan, next, now, q);
  }

  lemma PortsStayUnique(rows: Rows, ix: Index, scan: seq<Scanned>, next: RowId, now: int, cutoff: int, r: RowId, q: RowId)
    requires Indexes(ix, rows) && Below(rows, next) && UniquePorts(rows) && r != q
    requires forall i, j :: !Twins(ix, scan, i, j)
    requires var out := Reconciled(rows, ix, scan, next, now, cutoff);
      r in out && q in out && out[r].byId.None? && out[q].byId.None? && out[r].port.Some?
    ensures Reconciled(rows, ix, scan, next, now, cutoff)[q].port != Reconciled(rows, ix, scan, next, now, cutoff)[r].port
  {
    ResultRow(rows, ix, scan, next, now, cutoff, r);
    ResultRow(rows, ix, scan, next, now, cutoff, q);
    var a := PortSource(rows, ix, scan, next, now, r);
    var b := PortSource(rows, ix, scan, next, now, q);
    assert !Twins(ix, scan, a, b) && !Twins(ix, scan, b, a);
  }

  /** The row a twin gets. */
  lemma TwinRow(rows: Rows, ix: Index, scan: seq<Scanned>, next: RowId, now: int, cutoff: int, m: nat)
    requires Indexes(ix, rows) && Below(rows, next) && m < |scan| && Match(ix, scan[m]).None?
    ensures var out := Reconciled(rows, ix, scan, next, now, cutoff);
      next + m in out && out[next + m] == Applied(FRESH, scan[m], now)
  {
    var r := next + m;
    SeenRow(rows, ix, scan, next, now, cutoff, m);
    forall k | 0 <= k < |scan| && k != m ensures PlaceOf(ix, scan, next, k) != r {
      SharedRowIff(rows, ix, scan, next, m, k);
    }
    var last := LastWins(rows, ix, scan, next, now, r);
    assert last == m;
  }

  /** Link names stay unique whatever the ports; ports among rows without a link name do exactly when no two
      drives without one are new on one port. */
  lemma ReconcileKeepsUnique(rows: Rows, ix: Index, scan: seq<Scanned>, next: RowId, now: int, cutoff: int)
    requires Indexes(ix, rows) && Below(rows, next) && DistinctNames(scan) && Known(rows)
    ensures UniqueNames(Reconciled(rows, ix, scan, next, now, cutoff))
    ensures UniquePorts(Reconciled(rows, ix, scan, next, now, cutoff)) <==> forall i, j :: !Twins(ix, scan, i, j)
  {
    var out := Reconciled(rows, ix, scan, next, now, cutoff);
    forall r, q | r in out && q in out && r != q && out[r].byId.Some? ensures out[q].byId != out[r].byId {
      NamesStayUnique(rows, ix, scan, next, now, cutoff, r, q);
    }
    if i, j :| Twins(ix, scan, i, j) {
      TwinRow(rows, ix, scan, next, now, cutoff, i);
      TwinRow(rows, ix, scan, next, now, cutoff, j);
      assert out[next + i].port == out[next + j].port;
    } else {
      forall r, q | r in out && q in out && r != q && out[r].byId.None? && out[q].byId.None? && out[r].port.Some?
        ensures out[q].port != out[r].port
      {
        PortsStayUnique(rows, ix, scan, next, now, cutoff, r, q);
      }
    }
  }

  // ----- a second pass -----------------------------------------------------------------------------

  /** Of two drives that fall to one port: the port is known exactly when neither has a link name. */
  predicate Stable(ix: Index, scan: seq<Scanned>) {
    forall i, j | 0 <= i < j < |scan| && Falls(ix, scan[i]) && Falls(ix, scan[j]) && scan[i].port == scan[j].port ::
      scan[i].port in ix.byPort <==> scan[i].byId.None? && scan[j].byId.None?
  }

  lemma StableOneKind(rows: Rows, ix: Index, scan: seq<Scanned>, next: RowId, r: RowId)
    requires Indexes(ix, rows) && Below(rows, next) && DistinctNames(scan) && Stable(ix, scan)
    ensures OneKind(ix, scan, next, r)
  {
    forall i, j | 0 <= i < j < |scan| && PlaceOf(ix, scan, next, i) == r && PlaceOf(ix, scan, next, j) == r
      ensures scan[i].byId.None? && scan[j].byId.None?
    {
      SharedRowIff(rows, ix, scan, next, i, j);
    }
  }

  lemma StableHasNoTwins(ix: Index, scan: seq<Scanned>)
    requires Stable(ix, scan)
    ensures forall i, j :: !Twins(ix, scan, i, j)
  {
  }

  lemma MatchFinds(out: Rows, ix: Index, d: Scanned, r: RowId)
    requires Indexes(ix, out) && Known(out) && r in out && out[r].byId == d.byId && out[r].port == Some(d.port)
    ensures Match(ix, d) == Some(r)
  {
  }

  /** In a stable scan the drive's row has the drive's name and port afterwards. */
  lemma StableRow(rows: Rows, ix: Index, scan: seq<Scanned>, next: RowId, now: int, cutoff: int, m: nat)
    requires Indexes(ix, rows) && Below(rows, next) && DistinctNames(scan) && Stable(ix, scan) && m < |scan|
    ensures var out := Reconciled(rows, ix, scan, next, now, cutoff);
      var r := PlaceOf(ix, scan, next, m);
      r in out && out[r].byId == scan[m].byId && out[r].port == Some(scan[m].port)
  {
    var r := PlaceOf(ix, scan, next, m);
    StableOneKind(rows, ix, scan, next, r);
    SeenRow(rows, ix, scan, next, now, cutoff, m);
    var last := LastWins(rows, ix, scan, next, now, r);
    if last != m { SharedRowIff(rows, ix, scan, next, m, last); }
  }

  lemma SamePlaces(ix: Index, ix2: Index, scan: seq<Scanned>, next: RowId, next2: RowId)
    requires forall m | 0 <= m < |scan| :: Match(ix2, scan[m]) == Some(PlaceOf(ix, scan, next, m))
    ensures forall m | 0 <= m < |scan| :: PlaceOf(ix2, scan, next2, m) == PlaceOf(ix, scan, next, m)
    ensures Seen(ix2, scan, next2) == Seen(ix, scan, next)
  {
    forall m | 0 <= m < |scan| ensures PlaceOf(ix2, scan, next2, m) == PlaceOf(ix, scan, next, m) {
      assert Match(ix2, scan[m]).Some?;
    }
    forall r ensures r in Seen(ix2, scan, next2) <==> r in Seen(ix, scan, next) {
      SeenBy(ix, scan, next, r);
      SeenBy(ix2, scan, next2, r);
    }
  }

  /** The fold of a seen row starts again from its own result and ends there. */
  lemma FoldAgain(rows: Rows, ix: Index, scan: seq<Scanned>, next: RowId, now: int, out: Rows, ix2: Index, next2: RowId, r: RowId)
    requires r in Seen(ix, scan, next) && OneKind(ix, scan, next, r) && r in out && out[r] == Folded(rows, ix, scan, next, now, r)
    requires forall m | 0 <= m < |scan| :: PlaceOf(ix2, scan, next2, m) == PlaceOf(ix, scan, next, m)
    requires Seen(ix2, scan, next2) == Seen(ix, scan, next)
    ensures Folded(out, ix2, scan, next2, now, r) == out[r]
  {
    assert OneKind(ix2, scan, next2, r);
    var m := LastWins(rows, ix, scan, next, now, r);
    var m2 := LastWins(out, ix2, scan, next2, now, r);
    assert m == m2 by {
      assert PlaceOf(ix, scan, next, m2) == r && PlaceOf(ix2, scan, next2, m) == r;
    }
    AppliedOver(RowAt(rows, r), scan[m], scan[m], now);
  }

  lemma SettledTwice(w: Rows, seen: set<RowId>, cutoff: int)
    ensures Settled(Settled(w, seen, cutoff), seen, cutoff) == Settled(w, seen, cutoff)
  {
  }

  lemma SecondPlaces(rows: Rows, ix: Index, scan: seq<Scanned>, next: RowId, now: int, cutoff: int, ix2: Index, next2: RowId)
    requires Indexes(ix, rows) && Below(rows, next) && DistinctNames(scan) && Known(rows) && Stable(ix, scan)
    requires Indexes(ix2, Reconciled(rows, ix, scan, next, now, cutoff))
    ensures forall m | 0 <= m < |scan| :: PlaceOf(ix2, scan, next2, m) == PlaceOf(ix, scan, next, m)
    ensures Seen(ix2, scan, next2) == Seen(ix, scan, next)
  {
    var out := Reconciled(rows, ix, scan, next, now, cutoff);
    StableHasNoTwins(ix, scan);
    ReconcileKeepsUnique(rows, ix, scan, next, now, cutoff);
    forall m | 0 <= m < |scan| ensures Match(ix2, scan[m]) == Some(PlaceOf(ix, scan, next, m)) {
      StableRow(rows, ix, scan, next, now, cutoff, m);
      MatchFinds(out, ix2, scan[m], PlaceOf(ix, scan, next, m));
    }
    SamePlaces(ix, ix2, scan, next, next2);
  }

  lemma SecondRow(rows: Rows, ix: Index, scan: seq<Scanned>, next: RowId, now: int, cutoff: int, ix2: Index, next2: RowId, r: RowId)
    requires Indexes(ix, rows) && Below(rows, next) && DistinctNames(scan) && Stable(ix, scan)
    requires forall m | 0 <= m < |scan| :: PlaceOf(ix2, scan, next2, m) == PlaceOf(ix, scan, next, m)
    requires Seen(ix2, scan, next2) == Seen(ix, scan, next) && r in Reconciled(rows, ix, scan, next, now, cutoff)
    ensures var out := Reconciled(rows, ix, scan, next, now, cutoff); Folded(out, ix2, scan, next2, now, r) == out[r]
  {
    var out := Reconciled(rows, ix, scan, next, now, cutoff);
    if r in Seen(ix, scan, next) {
      StableOneKind(rows, ix, scan, next, r);
      WorkFolds(rows, ix, scan, next, now);
      FoldAgain(rows, ix, scan, next, now, out, ix2, next2, r);
    } else {
      UnseenFold(out, ix2, scan, next2, now, r);
    }
  }

  lemma StableWork(rows: Rows, ix: Index, scan: seq<Scanned>, next: RowId, now: int, cutoff: int, ix2: Index, next2: RowId)
    requires Indexes(ix, rows) && Below(rows, next) && DistinctNames(scan) && Known(rows) && Stable(ix, scan)
    requires Indexes(ix2, Reconciled(rows, ix, scan, next, now, cutoff))
    ensures var out := Reconciled(rows, ix, scan, next, now, cutoff);
      Work(out, ix2, scan, next2, now) == out && Seen(ix2, scan, next2) == Seen(ix, scan, next)
  {
    var out := Reconciled(rows, ix, scan, next, now, cutoff);
    SecondPlaces(rows, ix, scan, next, now, cutoff, ix2, next2);
    SeenKept(rows, ix, scan, next, now, cutoff);
    WorkFolds(out, ix2, scan, next2, now);
    forall r | r in out ensures Folded(out, ix2, scan, next2, now, r) == out[r] {
      SecondRow(rows, ix, scan, next, now, cutoff, ix2, next2, r);
    }
  }

  lemma StableSecondPass(rows: Rows, ix: Index, scan: seq<Scanned>, next: RowId, now: int, cutoff: int, ix2: Index, next2: RowId)
    requires Indexes(ix, rows) && Below(rows, next) && DistinctNames(scan) && Known(rows) && Stable(ix, scan)
    requires Indexes(ix2, Reconciled(rows, ix, scan, next, now, cutoff))
    ensures var out := Reconciled(rows, ix, scan, next, now, cutoff); Reconciled(out, ix2, scan, next2, now, cutoff) == out
  {
    StableWork(rows, ix, scan, next, now, cutoff, ix2, next2);
    SettledTwice(Work(rows, ix, scan, next, now), Seen(ix, scan, next), cutoff);
  }

  lemma SeenKept(rows: Rows, ix: Index, scan: seq<Scanned>, next: RowId, now: int, cutoff: int)
    ensures Seen(ix, scan, next) <= Reconciled(rows, ix, scan, next, now, cutoff).Keys
  {
    WorkFolds(rows, ix, scan, next, now);
  }

  // ----- when the second pass is not the identity ----------------------------------------------------

  /** Of a row without a link name that drives of both kinds fall to, or several linked ones: the last linked
      drive's name stays. */
  lemma {:induction false} LinkedWins(rows: Rows, ix: Index, scan: seq<Scanned>, next: RowId, now: int, r: RowId, k: nat) returns (m: int)
    requires k < |scan| && PlaceOf(ix, scan, next, k) == r && scan[k].byId.Some?
    ensures 0 <= m < |scan| && PlaceOf(ix, scan, next, m) == r && scan[m].byId.Some?
    ensures Folded(rows, ix, scan, next, now, r).byId == scan[m].byId
    decreases |scan|
  {
    var n := |scan| - 1;
    if PlaceOf(ix, scan, next, n) == r && scan[n].byId.Some? {
      m := n;
    } else {
      assert PlaceOf(ix, scan[..n], next, k) == r;
      m := LinkedWins(rows, ix, scan[..n], next, now, r, k);
      assert PlaceOf(ix, scan[..n], next, m) == PlaceOf(ix, scan, next, m);
    }
  }

  /** A row of the result that drives of a scan fall to: what becomes of the port and the names. */
  lemma AdoptedPort(rows: Rows, ix: Index, scan: seq<Scanned>, next: RowId, now: int, cutoff: int, ix2: Index, i: nat, j: nat) returns (k: nat)
    requires Indexes(ix, rows) && Below(rows, next) && DistinctNames(scan) && Known(rows)
    requires Indexes(ix2, Reconciled(rows, ix, scan, next, now, cutoff))
    requires i < j < |scan| && Falls(ix, scan[i]) && Falls(ix, scan[j]) && scan[i].port == scan[j].port
    requires scan[i].port in ix.byPort && (scan[i].byId.Some? || scan[j].byId.Some?)
    ensures k < |scan| && Match(ix2, scan[k]).None?
  {
    var out := Reconciled(rows, ix, scan, next, now, cutoff);
    var port := scan[i].port;
    var r := ix.byPort[port];
    assert PlaceOf(ix, scan, next, i) == r && PlaceOf(ix, scan, next, j) == r;
    var y := LinkedWins(rows, ix, scan, next, now, r, if scan[i].byId.Some? then i else j);
    k := if scan[i].byId == scan[y].byId then j else i;
    SeenRow(rows, ix, scan, next, now, cutoff, i);
    if port in ix2.byPort {
      var q := ix2.byPort[port];
      ResultRow(rows, ix, scan, next, now, cutoff, q);
      var a := PortSource(rows, ix, scan, next, now, q);
      assert false;
    }
    if scan[k].byId.Some? && scan[k].byId.value in ix2.byId {
      var q := ix2.byId[scan[k].byId.value];
      ResultRow(rows, ix, scan, next, now, cutoff, q);
      var a := NameSource(rows, ix, scan, next, now, q);
      assert false;
    }
  }

  /** Twins: the second pass gives both of them one row and leaves the other one behind. */
  lemma TwinLeft(rows: Rows, ix: Index, scan: seq<Scanned>, next: RowId, now: int, cutoff: int, ix2: Index, next2: RowId, i: nat, j: nat)
    returns (r: RowId)
    requires Indexes(ix, rows) && Below(rows, next) && Twins(ix, scan, i, j)
    requires var out := Reconciled(rows, ix, scan, next, now, cutoff); Indexes(ix2, out) && Below(out, next2)
    ensures var out := Reconciled(rows, ix, scan, next, now, cutoff);
      r in out && out[r].present && out[r].lifecycle == Detected && r !in Seen(ix2, scan, next2)
  {
    var out := Reconciled(rows, ix, scan, next, now, cutoff);
    TwinRow(rows, ix, scan, next, now, cutoff, i);
    TwinRow(rows, ix, scan, next, now, cutoff, j);
    var port := scan[i].port;
    r := if ix2.byPort[port] == next + i then next + j else next + i;
    forall m | 0 <= m < |scan| ensures PlaceOf(ix2, scan, next2, m) != r {
    }
    SeenBy(ix2, scan, next2, r);
  }

  /** A second pass with the same scan at the same time changes nothing exactly when the scan is stable. */
  lemma SecondPassIsIdentity(rows: Rows, ix: Index, scan: seq<Scanned>, next: RowId, now: int, cutoff: int, ix2: Index, next2: RowId)
    requires Indexes(ix, rows) && Below(rows, next) && DistinctNames(scan) && Known(rows)
    requires var out := Reconciled(rows, ix, scan, next, now, cutoff); Indexes(ix2, out) && Below(out, next2)
    ensures var out := Reconciled(rows, ix, scan, next, now, cutoff);
      Reconciled(out, ix2, scan, next2, now, cutoff) == out <==> Stable(ix, scan)
  {
    var out := Reconciled(rows, ix, scan, next, now, cutoff);
    if Stable(ix, scan) {
      StableSecondPass(rows, ix, scan, next, now, cutoff, ix2, next2);
    } else {
      var i, j :| 0 <= i < j < |scan| && Falls(ix, scan[i]) && Falls(ix, scan[j]) && scan[i].port == scan[j].port
        && !(scan[i].port in ix.byPort <==> scan[i].byId.None? && scan[j].byId.None?);
      if scan[i].port in ix.byPort {
        var k := AdoptedPort(rows, ix, scan, next, now, cutoff, ix2, i, j);
        SeenRow(out, ix2, scan, next2, now, cutoff, k);
        assert PlaceOf(ix2, scan, next2, k) !in out;
      } else {
        var r := TwinLeft(rows, ix, scan, next, now, cutoff, ix2, next2, i, j);
        UnseenRow(out, ix2, scan, next2, now, cutoff, r);
      }
    }
  }

  // ----- inputs that fail ------------------------------------------------------------------------------

  /** Two drives without link names behind one SCSI host, new to the table: two rows with one port. */
  lemma TwinsShareAPort(a: Scanned, b: Scanned, next: RowId, now: int, cutoff: int)
    requires a.byId.None? && b.byId.None? && a.port == b.port
    ensures !UniquePorts(Reconciled(map[], Index(map[], map[]), [a, b], next, now, cutoff))
  {
    var scan := [a, b];
    assert Twins(Index(map[], map[]), scan, 0, 1);
    ReconcileKeepsUnique(map[], Index(map[], map[]), scan, next, now, cutoff);
  }

  /** Two drives without link names behind one SCSI host share a port: from the second pass on they share a
      row, and the other row is marked absent. */
  lemma SharedPortSharesRow(rows: Rows, ix: Index, a: Scanned, b: Scanned, next: RowId, r: RowId, q: RowId, now: int, cutoff: int)
    requires a.byId.None? && b.byId.None? && a.port == b.port
    requires r != q && rows.Keys == {r, q} && HasPort(rows[r], a.port) && HasPort(rows[q], a.port) && Indexes(ix, rows)
    requires rows[r].lifecycle == Ignored && rows[q].lifecycle == Ignored
    ensures var out := Reconciled(rows, ix, [a, b], next, now, cutoff);
      && Place(ix, a, next, 0) == Place(ix, b, next, 1)
      && r in out && q in out && (!out[r].present || !out[q].present)
  {
    assert a.port in ix.byPort && ix.byPort[a.port] in {r, q};
    assert [a, b][..1] == [a];
    ProtectedRows(rows, ix, [a, b], next, now, cutoff, r);
    ProtectedRows(rows, ix, [a, b], next, now, cutoff, q);
    assert Seen(ix, [a, b], next) == {ix.byPort[a.port]} by { assert [a, b][0] == a && [a, b][1] == b; }
  }
}
