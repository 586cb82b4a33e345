// What the service transitions leave on record, and that they succeed when nothing fails.
module ServiceAnswers {
  import opened ServiceControl
  import opened Wrappers

  // ---------- what is on record afterwards ----------

  /** The record with each palette noted, a later one for the same user replacing an earlier one. */
  function Noted(o: Originals, items: seq<(nat, int)>): Originals
    decreases |items|
  {
    if items == [] then o else Noted(o[Item(items[0].0) := items[0].1], items[1..])
  }

  lemma StoreMeans(w: World, r: Record)
    ensures var (n, ok) := Store(w, r); n.nodes == w.nodes && (ok ==> n.disk == r && n.memory == r && n.alive && w.alive)
  {
  }

  lemma {:induction false} CaptureResumeMeans(w: World, items: seq<(nat, int)>)
    requires w.memory == w.disk
    ensures var (n, ok) := CaptureResume(w, items);
      n.nodes == w.nodes && (ok ==> n.memory == n.disk == w.disk.(originals := Noted(w.disk.originals, items)))
    decreases |items|
  {
    hide Store;
    if items != [] {
      var o := w.memory.originals[Item(items[0].0) := items[0].1];
      StoreMeans(w, w.memory.(originals := o));
      var (a, kept) := Replace(w, Item(items[0].0), items[0].1);
      if kept { CaptureResumeMeans(a, items[1..]); }
    }
  }

  /** A restore writes nodes only. */
  ghost predicate SameRecord(w: World, n: World) {
    n.memory == w.memory && n.disk == w.disk
  }

  lemma WriteNodeRecord(w: World, k: Key, v: int)
    ensures SameRecord(w, WriteNode(w, k, v).0) && SameRecord(w, ReadNode(w, k).0) && SameRecord(w, Other(w).0)
  {
  }

  lemma {:induction false} OpenRangesRecord(w: World, o: Originals, ks: seq<Key>)
    ensures SameRecord(w, OpenRanges(w, o, ks).0)
    decreases |ks|
  {
    if ks != [] {
      if ks[0].Min? && ks[0] in o { OpenOneRecord(w, ks[0], o[ks[0]]); }
      hide OpenOne;
      OpenRangesRecord(if ks[0].Min? && ks[0] in o then OpenOne(w, ks[0], o[ks[0]]).0 else w, o, ks[1..]);
    }
  }

  lemma OpenOneRecord(w: World, k: Key, v: int)
    requires k.Min?
    ensures SameRecord(w, OpenOne(w, k, v).0)
  {
    hide WriteNode, ReadNode;
    WriteNodeRecord(w, Max(k.id), v);
    var a := ReadNode(w, Max(k.id)).0;
    WriteNodeRecord(a, Max(k.id), v);
    WriteNodeRecord(a, k, v);
    WriteNodeRecord(WriteNode(a, Max(k.id), v).0, k, v);
  }

  lemma {:induction false} PutBackAllRecord(w: World, o: Originals, ks: seq<Key>)
    ensures SameRecord(w, PutBackAll(w, o, ks).0)
    decreases |ks|
  {
    if ks != [] {
      var k := ks[0];
      if Reversible(k) && k in o { PutBackOneRecord(w, k, o[k]); }
      hide PutBackOne;
      PutBackAllRecord(if Reversible(k) && k in o then PutBackOne(w, k, o[k]).0 else w, o, ks[1..]);
    }
  }

  lemma PutBackOneRecord(w: World, k: Key, v: int)
    ensures SameRecord(w, PutBackOne(w, k, v).0)
  {
    hide WriteNode, ReadNode;
    WriteNodeRecord(w, k, v);
    WriteNodeRecord(WriteNode(w, k, v).0, k, v);
  }

  lemma RestoreReleasedRecord(w: World, ks: seq<Key>)
    ensures SameRecord(w, RestoreReleased(w, ks).0)
  {
    hide OpenRanges, PutBackAll, Other;
    var o, v := w.memory.originals, w.(restoring := true);
    WriteNodeRecord(v, OneShot(0), 0);
    var a := Other(v).0;
    OpenRangesRecord(a, o, ks);
    PutBackAllRecord(OpenRanges(a, o, ks).0, o, ks);
    WriteNodeRecord(PutBackAll(OpenRanges(a, o, ks).0, o, ks).0, OneShot(0), 0);
  }

  lemma ReleaseMeans(w: World, ks: seq<Key>)
    ensures var (n, ok) := Release(w, ks); ok ==> n.disk == n.memory == w.memory.(pending := false)
  {
    hide RestoreReleased, Store;
    RestoreReleasedRecord(w, ks);
    var a := RestoreReleased(w, ks).0;
    StoreMeans(a, a.memory.(pending := false));
  }

  /**
   * A disable that succeeds leaves the record disabled with nothing owed, configured as before, all
   * originals still there, and, if the service was on, the palettes noted to be resumed.
   */
  lemma DisableMeans(w: World, ks: seq<Key>, items: seq<(nat, int)>)
    requires w.memory == w.disk
    ensures var (n, ok) := Disable(w, ks, items);
      ok ==> n.memory == n.disk == Record(false, w.disk.configured,
        if w.disk.enabled then Noted(w.disk.originals, items) else w.disk.originals, false)
  {
    hide CaptureResume, Release, Store;
    CaptureResumeMeans(w, items);
    var (a, captured) := if w.memory.enabled then CaptureResume(w, items) else (w, true);
    if captured {
      StoreMeans(a, a.memory.(pending := true));
      var (b, noted) := SetReleasePending(a, true);
      StoreMeans(b, b.memory.(enabled := false));
      var (c, stopped) := SetIntent(b, false, b.memory.configured);
      ReleaseMeans(c, ks);
    }
  }

  lemma EnableNodes(w: World)
    ensures Enable(w).0.nodes == w.nodes
  {
    hide Store;
    var a := Other(w).0;
    StoreMeans(a, a.memory.(pending := false));
    var b := SetReleasePending(a, false).0;
    StoreMeans(b, b.memory.(enabled := true));
  }

  /** A disable that succeeds has given back every node on record: both ends of ranges, and any other. */
  lemma DisableReturns(w: World, ks: seq<Key>, items: seq<(nat, int)>, orig: map<Key, int>, k: Key)
    requires Ready(w, ks, orig)
    ensures var (n, ok) := Disable(w, ks, items);
      ok && k in w.disk.originals && (k.Min? || k.Max? || k.Plain?) ==>
        k in n.nodes && k in orig && n.nodes[k] == orig[k] == w.disk.originals[k]
  {
    DisableKeeps(w, ks, items, orig);
    var (n, ok) := Disable(w, ks, items);
    if ok && k in w.disk.originals && (k.Min? || k.Max? || k.Plain?) {
      DisableMeans(w, ks, items);
      NotedElsewhere(w.disk.originals, items, k);
      assert NodeSafe(n.nodes, n.disk.originals, orig, k);
      assert NodeBack(n.nodes, n.disk.originals, k);
    }
    hide Disable, Ordered, Owed;
  }

  lemma {:induction false} NotedElsewhere(o: Originals, items: seq<(nat, int)>, k: Key)
    requires k in o && !k.Item?
    ensures k in Noted(o, items) && Noted(o, items)[k] == o[k]
    decreases |items|
  {
    if items != [] { NotedElsewhere(o[Item(items[0].0) := items[0].1], items[1..], k); }
  }

  /** Opening a range, when it is reported as done, leaves its lower end at its original; no other lower end moves. */
  lemma OpenOneOpens(w: World, k: Key, v: int)
    requires k.Min?
    ensures var (n, ok) := OpenOne(w, k, v);
      && (ok ==> k in n.nodes && n.nodes[k] == v)
      && (forall j: Key :: j.Min? && j != k ==> (j in n.nodes <==> j in w.nodes) && (j in n.nodes ==> n.nodes[j] == w.nodes[j]))
  {
    var m := Max(k.id);
    WritesOnly(w, m, v);
    var (a, top) := ReadNode(w, m);
    WritesOnly(a, m, v);
    WritesOnly(a, k, v);
    WritesOnly(WriteNode(a, m, v).0, k, v);
    hide WriteNode, ReadNode;
  }

  lemma WritesOnly(w: World, k: Key, v: int)
    ensures ReadNode(w, k).0.nodes == w.nodes
    ensures var (n, ok) := WriteNode(w, k, v);
      && (ok ==> k in n.nodes && n.nodes[k] == v)
      && (forall j :: j != k ==> (j in n.nodes <==> j in w.nodes) && (j in n.nodes ==> n.nodes[j] == w.nodes[j]))
  {
  }

  /** The first pass of a release, when it is reported as done, has every recorded lower end at its original. */
  lemma {:induction false} OpenRangesOpen(w: World, o: Originals, ks: seq<Key>)
    ensures var (n, ok) := OpenRanges(w, o, ks);
      && (ok ==> forall k: Key :: k in ks && k.Min? && k in o ==> k in n.nodes && n.nodes[k] == o[k])
      && (forall k: Key :: k.Min? && k in o && k in w.nodes && w.nodes[k] == o[k] && ok ==> k in n.nodes && n.nodes[k] == o[k])
    decreases |ks|
  {
    hide OpenOne;
    if ks != [] {
      assert forall k :: k in ks <==> k == ks[0] || k in ks[1..];
      if ks[0].Min? && ks[0] in o {
        OpenOneOpens(w, ks[0], o[ks[0]]);
        OpenRangesOpen(OpenOne(w, ks[0], o[ks[0]]).0, o, ks[1..]);
      } else {
        OpenRangesOpen(w, o, ks[1..]);
      }
    }
  }

  /** Nodes are given back one after the other, the later ones whatever became of the earlier ones. */
  lemma {:induction false} PutBackAppends(w: World, o: Originals, a: seq<Key>, b: seq<Key>)
    ensures var (m, first) := PutBackAll(w, o, a);
      PutBackAll(w, o, a + b) == (PutBackAll(m, o, b).0, first && PutBackAll(m, o, b).1)
    decreases |a|
  {
    hide PutBackOne;
    if a == [] {
      assert a + b == b;
    } else {
      assert (a + b)[0] == a[0] && (a + b)[1..] == a[1..] + b;
      var n := if Reversible(a[0]) && a[0] in o then PutBackOne(w, a[0], o[a[0]]).0 else w;
      PutBackAppends(n, o, a[1..], b);
    }
  }

  /** So are ranges opened. */
  lemma {:induction false} OpenAppends(w: World, o: Originals, a: seq<Key>, b: seq<Key>)
    ensures var (m, first) := OpenRanges(w, o, a);
      OpenRanges(w, o, a + b) == (OpenRanges(m, o, b).0, first && OpenRanges(m, o, b).1)
    decreases |a|
  {
    hide OpenOne;
    if a == [] {
      assert a + b == b;
    } else {
      assert (a + b)[0] == a[0] && (a + b)[1..] == a[1..] + b;
      var n := if a[0].Min? && a[0] in o then OpenOne(w, a[0], o[a[0]]).0 else w;
      OpenAppends(n, o, a[1..], b);
    }
  }

  /** A release is not reported as done if its first step, or the opening of any range, failed; every node is tried all the same. */
  lemma ReleaseReports(w: World, ks: seq<Key>)
    ensures var o, a := w.memory.originals, Other(w.(restoring := true)).0;
      var (n, ok) := RestoreReleased(w, ks);
      && (w.script.End? || !w.script.outcome.Fine? || !OpenRanges(a, o, ks).1 ==> !ok)
      && n.nodes == PutBackAll(OpenRanges(a, o, ks).0, o, ks).0.nodes
  {
    hide OpenRanges, PutBackAll;
  }

  /** An enable that succeeds changes the intent and the release flag, and touches no node. */
  lemma EnableMeans(w: World)
    requires w.memory == w.disk
    ensures var (n, ok) := Enable(w);
      n.nodes == w.nodes && (ok ==> n.memory == n.disk == w.disk.(enabled := true, pending := false))
  {
    hide Store;
    var (a, resumed) := Other(w);
    WriteNodeRecord(w, OneShot(0), 0);
    StoreMeans(a, a.memory.(pending := false));
    var b := SetReleasePending(a, false).0;
    StoreMeans(b, b.memory.(enabled := true));
  }

  // ---------- when nothing fails ----------

  predicate FineFor(s: Script, steps: nat) {
    steps == 0 || (s.Then? && s.outcome.Fine? && FineFor(s.rest, steps - 1))
  }

  ghost predicate Goes(w: World, steps: nat) {
    w.alive && FineFor(w.script, steps)
  }

  lemma {:induction false} FineLess(s: Script, steps: nat, fewer: nat)
    requires FineFor(s, steps) && fewer <= steps
    ensures FineFor(s, fewer)
  {
    if fewer > 0 { FineLess(s.rest, steps - 1, fewer - 1); }
  }

  lemma GoesLess(w: World, steps: nat, fewer: nat)
    requires Goes(w, steps) && fewer <= steps
    ensures Goes(w, fewer)
  {
    FineLess(w.script, steps, fewer);
  }

  lemma StoreGoes(w: World, r: Record, steps: nat)
    requires Goes(w, steps + 1)
    ensures var (n, ok) := Store(w, r); ok && Goes(n, steps) && n.memory == n.disk == r && n.nodes == w.nodes && n.restoring == w.restoring
  {
  }

  lemma OtherGoes(w: World, steps: nat)
    requires Goes(w, steps + 1)
    ensures var (n, ok) := Other(w);
      ok && Goes(n, steps) && n.memory == w.memory && n.disk == w.disk && n.nodes == w.nodes && n.restoring == w.restoring
  {
  }

  lemma ReadGoes(w: World, k: Key, steps: nat)
    requires Goes(w, steps + 1)
    ensures var (n, seen) := ReadNode(w, k);
      Goes(n, steps) && n.nodes == w.nodes && seen == if k in w.nodes then Some(w.nodes[k]) else None
  {
  }

  lemma WriteGoes(w: World, k: Key, v: int, steps: nat)
    requires Goes(w, steps + 1) && k in w.nodes
    ensures var (n, ok) := WriteNode(w, k, v); ok && Goes(n, steps) && n.nodes == w.nodes[k := v]
  {
  }

  /** A value is noted once only, and nothing is noted while originals are given back. */
  lemma RememberFirst(w: World, k: Key, v: int)
    ensures k in w.memory.originals || w.restoring ==> Remember(w, k, v) == (w, true)
    ensures k !in w.memory.originals && !w.restoring && Remember(w, k, v).1 ==>
      Remember(w, k, v).0.disk == w.memory.(originals := w.memory.originals[k := v])
  {
  }

  /** While originals are given back a write is only that: nothing is read before it and nothing recorded. */
  lemma RestoringWritesOnly(w: World, k: Key, v: int)
    requires w.restoring
    ensures SameRecord(w, Write(w, k, v).0)
    ensures Goes(w, 1) && k in w.nodes ==> Write(w, k, v).1 && Write(w, k, v).0.nodes == w.nodes[k := v]
  {
    WriteNodeRecord(w, k, v);
    if Goes(w, 1) && k in w.nodes { WriteGoes(w, k, v, 0); }
    hide WriteNode;
  }

  /** When nothing fails, a write takes effect, and a reversible node's first value is on record. */
  lemma WriteSucceeds(w: World, k: Key, v: int)
    requires Goes(w, 3) && k in w.nodes && !w.restoring
    ensures var (n, ok) := Write(w, k, v);
      && ok && n.nodes == w.nodes[k := v]
      && (!k.OneShot? && !k.Item? && k !in w.memory.originals ==> k in n.disk.originals && n.disk.originals[k] == w.nodes[k])
  {
    if Reversible(k) && k !in w.memory.originals {
      ReadGoes(w, k, 2);
      var a := ReadNode(w, k).0;
      StoreGoes(a, a.memory.(originals := a.memory.originals[k := w.nodes[k]]), 1);
      WriteGoes(Remember(a, k, w.nodes[k]).0, k, v, 0);
      RecordKept(Remember(a, k, w.nodes[k]).0, k, v);
    } else {
      GoesLess(w, 3, 1);
      WriteGoes(w, k, v, 0);
    }
    hide WriteNode, Store;
  }

  lemma RecordKept(w: World, k: Key, v: int)
    ensures SameRecord(w, WriteNode(w, k, v).0)
  {
    WriteNodeRecord(w, k, v);
  }

  lemma OpenOneGoes(w: World, k: Key, v: int, steps: nat)
    requires Goes(w, steps + 3) && k.Min? && k in w.nodes
    ensures var (n, ok) := OpenOne(w, k, v); ok && Goes(n, steps) && n.nodes.Keys == w.nodes.Keys
  {
    hide WriteNode, ReadNode, Goes;
    var m := Max(k.id);
    ReadGoes(w, m, steps + 2);
    var (a, top) := ReadNode(w, m);
    if top.Some? && v > top.value {
      WriteGoes(a, m, v, steps + 1);
      WriteGoes(WriteNode(a, m, v).0, k, v, steps);
    } else {
      GoesLess(a, steps + 2, steps + 1);
      WriteGoes(a, k, v, steps);
    }
  }

  lemma {:induction false} OpenRangesGoes(w: World, o: Originals, ks: seq<Key>, steps: nat)
    requires Goes(w, steps + 3 * |ks|) && forall k :: k in o && Reversible(k) ==> k in w.nodes
    ensures var (n, ok) := OpenRanges(w, o, ks); ok && Goes(n, steps) && n.nodes.Keys == w.nodes.Keys
    decreases |ks|
  {
    hide OpenOne, Goes;
    if ks != [] {
      if ks[0].Min? && ks[0] in o {
        OpenOneGoes(w, ks[0], o[ks[0]], steps + 3 * |ks| - 3);
        OpenRangesGoes(OpenOne(w, ks[0], o[ks[0]]).0, o, ks[1..], steps);
      } else {
        GoesLess(w, steps + 3 * |ks|, steps + 3 * |ks[1..]|);
        OpenRangesGoes(w, o, ks[1..], steps);
      }
    }
  }

  lemma PutBackOneGoes(w: World, k: Key, v: int, steps: nat)
    requires Goes(w, steps + 2) && k in w.nodes
    ensures var (n, ok) := PutBackOne(w, k, v); ok && Goes(n, steps) && n.nodes.Keys == w.nodes.Keys
  {
    hide WriteNode, ReadNode, Goes;
    WriteGoes(w, k, v, steps + 1);
    ReadGoes(WriteNode(w, k, v).0, k, steps);
  }

  lemma {:induction false} PutBackAllGoes(w: World, o: Originals, ks: seq<Key>, steps: nat)
    requires Goes(w, steps + 2 * |ks|) && forall k :: k in o && Reversible(k) ==> k in w.nodes
    ensures var (n, ok) := PutBackAll(w, o, ks); ok && Goes(n, steps)
    decreases |ks|
  {
    hide PutBackOne, Goes;
    if ks != [] {
      if Reversible(ks[0]) && ks[0] in o {
        PutBackOneGoes(w, ks[0], o[ks[0]], steps + 2 * |ks| - 2);
        PutBackAllGoes(PutBackOne(w, ks[0], o[ks[0]]).0, o, ks[1..], steps);
      } else {
        GoesLess(w, steps + 2 * |ks|, steps + 2 * |ks[1..]|);
        PutBackAllGoes(w, o, ks[1..], steps);
      }
    }
  }

  lemma JournaledNodesExist(w: World, orig: map<Key, int>)
    requires Inv(w, orig)
    ensures forall k :: k in w.disk.originals && Reversible(k) ==> k in w.nodes
  {
    forall k | k in w.disk.originals && Reversible(k) ensures k in w.nodes { assert NodeSafe(w.nodes, w.disk.originals, orig, k); }
  }

  lemma RestoreReleasedGoes(w: World, ks: seq<Key>, orig: map<Key, int>, steps: nat)
    requires Inv(w, orig) && Goes(w, steps + 5 * |ks| + 2)
    ensures var (n, ok) := RestoreReleased(w, ks); ok && Goes(n, steps)
  {
    assert w.memory == w.disk;
    JournaledNodesExist(w, orig);
    hide OpenRanges, PutBackAll, Other, Inv, Goes;
    var o, v := w.memory.originals, w.(restoring := true);
    GoesRestoring(w, steps + 5 * |ks| + 2);
    OtherGoes(v, steps + 5 * |ks| + 1);
    var a := Other(v).0;
    OpenRangesGoes(a, o, ks, steps + 2 * |ks| + 1);
    var b := OpenRanges(a, o, ks).0;
    assert forall k :: k in b.nodes <==> k in b.nodes.Keys;
    PutBackAllGoes(b, o, ks, steps + 1);
    var c := PutBackAll(b, o, ks).0;
    OtherGoes(c, steps);
    GoesRestored(Other(c).0, steps);
  }

  lemma GoesRestoring(w: World, steps: nat)
    requires Goes(w, steps)
    ensures Goes(w.(restoring := true), steps)
  {
  }

  lemma GoesRestored(w: World, steps: nat)
    requires Goes(w, steps)
    ensures Goes(w.(restoring := false), steps)
  {
  }

  lemma ReleaseGoes(w: World, ks: seq<Key>, orig: map<Key, int>, steps: nat)
    requires Inv(w, orig) && Goes(w, steps + 5 * |ks| + 3)
    ensures var (n, ok) := Release(w, ks); ok && Goes(n, steps)
  {
    hide RestoreReleased, Store, Inv, Goes;
    RestoreReleasedGoes(w, ks, orig, steps + 1);
    var a := RestoreReleased(w, ks).0;
    StoreGoes(a, a.memory.(pending := false), steps);
  }

  lemma {:induction false} CaptureResumeGoes(w: World, items: seq<(nat, int)>, steps: nat)
    requires Goes(w, steps + |items|)
    ensures var (n, ok) := CaptureResume(w, items); ok && Goes(n, steps)
    decreases |items|
  {
    hide Store, Goes;
    if items != [] {
      StoreGoes(w, w.memory.(originals := w.memory.originals[Item(items[0].0) := items[0].1]), steps + |items| - 1);
      CaptureResumeGoes(Replace(w, Item(items[0].0), items[0].1).0, items[1..], steps);
    }
  }

  /** When nothing fails, a disable completes: every node is back and the record is disabled with nothing owed. */
  lemma DisableSucceeds(w: World, ks: seq<Key>, items: seq<(nat, int)>, orig: map<Key, int>)
    requires Ready(w, ks, orig) && Goes(w, |items| + 5 * |ks| + 5)
    ensures Disable(w, ks, items).1
  {
    CaptureResumeKeeps(w, items, orig);
    hide Inv, CaptureResume, Release, Store, Goes, Owed, Covers, Safe;
    var (a, captured) := if w.memory.enabled then CaptureResume(w, items) else (w, true);
    if w.memory.enabled {
      CaptureResumeGoes(w, items, 5 * |ks| + 5);
    } else {
      GoesLess(w, |items| + 5 * |ks| + 5, 5 * |ks| + 5);
    }
    WithdrawGoes(a, ks, orig);
  }

  lemma WithdrawGoes(w: World, ks: seq<Key>, orig: map<Key, int>)
    requires Inv(w, orig) && Goes(w, 5 * |ks| + 5)
    ensures Withdraw(w, ks).1
  {
    StoreKeeps(w, w.memory.(pending := true), orig);
    StoreGoes(w, w.memory.(pending := true), 5 * |ks| + 4);
    var a := SetReleasePending(w, true).0;
    StoreKeeps(a, a.memory.(enabled := false), orig);
    StoreGoes(a, a.memory.(enabled := false), 5 * |ks| + 3);
    ReleaseGoes(SetIntent(a, false, a.memory.configured).0, ks, orig, 0);
    hide Store, Release, Goes, Safe, Ordered;
  }

  /** When nothing fails, an enable completes. */
  lemma EnableSucceeds(w: World)
    requires Goes(w, 3)
    ensures Enable(w).1
  {
    hide Store, Other, Goes;
    OtherGoes(w, 2);
    var a := Other(w).0;
    StoreGoes(a, a.memory.(pending := false), 1);
    var b := SetReleasePending(a, false).0;
    StoreGoes(b, b.memory.(enabled := true), 0);
  }

  // ---------- restarts ----------

  /** Without a release under way a restart only reads the record back. */
  lemma BootReads(w: World, script: Script, ks: seq<Key>)
    requires !(w.disk.pending && !w.disk.enabled)
    ensures var n := Boot(w, script, ks);
      n.memory == w.disk && n.disk == w.disk && n.nodes == w.nodes && n.alive && !n.restoring
  {
  }

  /** When nothing fails, a restart finishes the release it finds: every node is back and nothing is owed. */
  lemma BootFinishes(w: World, script: Script, ks: seq<Key>, orig: map<Key, int>)
    requires Inv(w, orig) && Owed(w) && Covers(ks, w.disk.originals) && FineFor(script, 5 * |ks| + 3)
    requires w.disk.pending && !w.disk.enabled
    ensures var n := Boot(w, script, ks); n.alive && Restored(n) && n.disk == w.disk.(pending := false)
  {
    var a := w.(memory := w.disk, restoring := false, alive := true, script := script);
    assert Inv(a, orig) && Goes(a, 5 * |ks| + 3);
    BootKeeps(w, script, ks, orig);
    ReleaseGoes(a, ks, orig, 0);
    ReleaseMeans(a, ks);
    hide Inv, Release, Owed, Covers, Restored;
    assert Release(a, ks).0.alive by { LivesWhileGoing(Release(a, ks).0, 0); }
  }

  lemma LivesWhileGoing(w: World, steps: nat)
    requires Goes(w, steps)
    ensures w.alive
  {
  }
}
