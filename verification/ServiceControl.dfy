// Service intent, first-seen originals and their release: what is durable at every step.
module ServiceControl {
  import opened Wrappers

  /** A journal key: the two ends of a frequency range, another reversible node, a one-shot node, or no node. */
  datatype Key = Min(id: nat) | Max(id: nat) | Plain(id: nat) | OneShot(id: nat) | Item(id: nat)

  type Originals = map<Key, int>

  /** What `service.json` holds. */
  datatype Record = Record(enabled: bool, configured: bool, originals: Originals, pending: bool)

  /** A failed step may leave any value in its node; a process that dies while saving may have replaced the file. */
  datatype Outcome = Fine | Fails(raw: int) | Dies(raw: int, landed: bool)

  datatype Script = End | Then(outcome: Outcome, rest: Script)

  datatype World = World(
    memory: Record,
    disk: Record,
    nodes: map<Key, int>,
    restoring: bool,
    alive: bool,
    script: Script)

  predicate Reversible(k: Key) {
    k.Min? || k.Max? || k.Plain?
  }

  predicate Acts(w: World) {
    w.alive && w.script.Then?
  }

  function Advance(w: World): World
    requires w.script.Then?
  {
    w.(alive := !w.script.outcome.Dies?, script := w.script.rest)
  }

  // ---------- atomic steps ----------

  /** Saves a changed record; a failed save takes the change back in memory. */
  function Store(w: World, r: Record): (World, bool) {
    if !Acts(w) then (w.(alive := false), false)
    else
      var o := w.script.outcome;
      (Advance(w).(
         memory := if o.Fine? then r else w.memory,
         disk := if o.Fine? || (o.Dies? && o.landed) then r else w.disk),
       o.Fine?)
  }

  function ReadNode(w: World, k: Key): (World, Option<int>) {
    if !Acts(w) then (w.(alive := false), None)
    else (Advance(w), if w.script.outcome.Fine? && k in w.nodes then Some(w.nodes[k]) else None)
  }

  function WriteNode(w: World, k: Key, v: int): (World, bool) {
    if !Acts(w) then (w.(alive := false), false)
    else if k !in w.nodes then (Advance(w), false)
    else
      var o := w.script.outcome;
      (Advance(w).(nodes := w.nodes[k := if o.Fine? then v else o.raw]), o.Fine?)
  }

  /** Anything else on the way; only its success matters here. */
  function Other(w: World): (World, bool) {
    if !Acts(w) then (w.(alive := false), false) else (Advance(w), w.script.outcome.Fine?)
  }

  // ---------- the journal ----------

  function SetIntent(w: World, enabled: bool, configured: bool): (World, bool) {
    Store(w, w.memory.(enabled := enabled, configured := configured))
  }

  function SetReleasePending(w: World, pending: bool): (World, bool) {
    Store(w, w.memory.(pending := pending))
  }

  /** Records a value only the first time, and not while originals are being put back. */
  function Remember(w: World, k: Key, v: int): (World, bool) {
    if w.restoring || k in w.memory.originals then (w, true)
    else Store(w, w.memory.(originals := w.memory.originals[k := v]))
  }

  function Replace(w: World, k: Key, v: int): (World, bool) {
    Store(w, w.memory.(originals := w.memory.originals[k := v]))
  }

  function ClearOriginals(w: World): (World, bool) {
    Store(w, w.memory.(originals := map[]))
  }

  function Without(o: Originals, ks: seq<Key>): Originals {
    if ks == [] then o else Without(o - {ks[0]}, ks[1..])
  }

  function Forget(w: World, ks: seq<Key>): (World, bool) {
    Store(w, w.memory.(originals := Without(w.memory.originals, ks)))
  }

  /** Writes a node, recording what it held before the first such write. */
  function Write(w: World, k: Key, v: int): (World, bool) {
    if !w.restoring && Reversible(k) && k !in w.memory.originals then
      var (a, seen) := ReadNode(w, k);
      if seen.None? then (a, false)
      else
        var (b, kept) := Remember(a, k, seen.value);
        if kept then WriteNode(b, k, v) else (b, false)
    else WriteNode(w, k, v)
  }

  // ---------- putting the originals back ----------

  /** Opens a range whose upper end would reject the original lower end, then writes that lower end. */
  function OpenOne(w: World, k: Key, v: int): (World, bool)
    requires k.Min?
  {
    var (a, top) := ReadNode(w, Max(k.id));
    var (b, widened) := if top.Some? && v > top.value then WriteNode(a, Max(k.id), v) else (a, true);
    var (c, lowered) := WriteNode(b, k, v);
    (c, widened && lowered)
  }

  function OpenRanges(w: World, o: Originals, ks: seq<Key>): (World, bool)
    decreases |ks|
  {
    if ks == [] then (w, true)
    else
      var (a, first) := if ks[0].Min? && ks[0] in o then OpenOne(w, ks[0], o[ks[0]]) else (w, true);
      var (b, rest) := OpenRanges(a, o, ks[1..]);
      (b, first && rest)
  }

  function PutBackOne(w: World, k: Key, v: int): (World, bool) {
    var (a, written) := WriteNode(w, k, v);
    if !written then (a, false)
    else
      var (b, seen) := ReadNode(a, k);
      (b, seen == Some(v))
  }

  /** Every node is tried, whatever happened to the ones before it. */
  function PutBackAll(w: World, o: Originals, ks: seq<Key>): (World, bool)
    decreases |ks|
  {
    if ks == [] then (w, true)
    else
      var (a, first) := if Reversible(ks[0]) && ks[0] in o then PutBackOne(w, ks[0], o[ks[0]]) else (w, true);
      var (b, rest) := PutBackAll(a, o, ks[1..]);
      (b, first && rest)
  }

  function RestoreReleased(w: World, ks: seq<Key>): (World, bool) {
    var o := w.memory.originals;
    var (a, others) := Other(w.(restoring := true));
    var (b, widened) := OpenRanges(a, o, ks);
    var (c, put) := PutBackAll(b, o, ks);
    var (d, kept) := Other(c);
    (d.(restoring := false), others && widened && put && kept)
  }

  // ---------- transitions ----------

  /** Notes the palette chosen by each user, to be resumed later. */
  function CaptureResume(w: World, items: seq<(nat, int)>): (World, bool)
    decreases |items|
  {
    if items == [] then (w, true)
    else
      var (a, kept) := Replace(w, Item(items[0].0), items[0].1);
      if kept then CaptureResume(a, items[1..]) else (a, false)
  }

  function Release(w: World, ks: seq<Key>): (World, bool) {
    var (a, restored) := RestoreReleased(w, ks);
    if restored then SetReleasePending(a, false) else (a, false)
  }

  function Withdraw(w: World, ks: seq<Key>): (World, bool) {
    var (a, noted) := SetReleasePending(w, true);
    if !noted then (a, false)
    else
      var (b, stopped) := SetIntent(a, false, a.memory.configured);
      if stopped then Release(b, ks) else (b, false)
  }

  function Disable(w: World, ks: seq<Key>, items: seq<(nat, int)>): (World, bool) {
    var (a, captured) := if w.memory.enabled then CaptureResume(w, items) else (w, true);
    if captured then Withdraw(a, ks) else (a, false)
  }

  /** Forgets everything and starts again enabled but unconfigured. */
  function StartOver(w: World): (World, bool) {
    var (a, cleared) := Other(w);
    var (b, stopped) := if cleared then SetIntent(a, false, false) else (a, false);
    var (c, emptied) := if stopped then ClearOriginals(b) else (b, false);
    if emptied then SetIntent(c, true, false) else (c, false)
  }

  function Reset(w: World, ks: seq<Key>, items: seq<(nat, int)>): (World, bool) {
    var (a, disabled) := Disable(w, ks, items);
    if disabled then StartOver(a) else (a, false)
  }

  function Enable(w: World): (World, bool) {
    var (a, resumed) := Other(w);
    var (b, cleared) := if resumed then SetReleasePending(a, false) else (a, false);
    if cleared then SetIntent(b, true, b.memory.configured) else (b, false)
  }

  /** A new process reads the record and finishes a release that was under way. */
  function Boot(w: World, script: Script, ks: seq<Key>): World {
    var a := w.(memory := w.disk, restoring := false, alive := true, script := script);
    if a.memory.pending && !a.memory.enabled then Release(a, ks).0 else a
  }

  /** Gives the touch nodes back early and only then drops their journal entries. */
  function ReleaseEarly(w: World, ks: seq<Key>): (World, bool) {
    var (a, put) := PutBackEach(w, w.memory.originals, ks);
    var (b, saved) := if put then Other(a) else (a, false);
    if saved then Forget(b, ks) else (b, false)
  }

  /** Unlike `PutBackAll`, stops at the first failure. */
  function PutBackEach(w: World, o: Originals, ks: seq<Key>): (World, bool)
    decreases |ks|
  {
    if ks == [] then (w, true)
    else
      var (a, first) := if Reversible(ks[0]) && ks[0] in o then PutBackOne(w, ks[0], o[ks[0]]) else (w, true);
      if first then PutBackEach(a, o, ks[1..]) else (a, false)
  }

  // ---------- the invariant ----------

  /** One node against its original: journaled with that original, or untouched. */
  ghost predicate NodeSafe(nodes: map<Key, int>, o: Originals, orig: map<Key, int>, k: Key) {
    Reversible(k) ==>
      && (k in o ==> k in orig && o[k] == orig[k])
      && (k in nodes <==> k in orig)
      && (k in nodes && k !in o ==> nodes[k] == orig[k])
  }

  ghost predicate Safe(nodes: map<Key, int>, o: Originals, orig: map<Key, int>) {
    forall k :: NodeSafe(nodes, o, orig, k)
  }

  ghost predicate Ordered(orig: map<Key, int>) {
    forall i :: Min(i) in orig && Max(i) in orig ==> orig[Min(i)] <= orig[Max(i)]
  }

  ghost predicate NodeBack(nodes: map<Key, int>, o: Originals, k: Key) {
    Reversible(k) && k in o ==> k in nodes && nodes[k] == o[k]
  }

  /** Every journaled node holds its original. */
  ghost predicate Restored(w: World) {
    forall k :: NodeBack(w.nodes, w.disk.originals, k)
  }

  /** Disabled on disk means a release is still owed or has been completed. */
  ghost predicate Owed(w: World) {
    !w.disk.enabled ==> w.disk.pending || Restored(w)
  }

  ghost predicate Agrees(w: World) {
    w.alive ==> w.memory == w.disk
  }

  ghost predicate Inv(w: World, orig: map<Key, int>) {
    && Ordered(orig)
    && Safe(w.nodes, w.disk.originals, orig)
    && Agrees(w)
  }

  /** The restore visits every journaled node, in whatever order. */
  ghost predicate Covers(ks: seq<Key>, o: Originals) {
    forall k :: k in o && Reversible(k) ==> k in ks
  }

  // ---------- single steps ----------

  ghost predicate StoreEffect(w: World, r: Record, n: World, ok: bool) {
    && n.nodes == w.nodes
    && n.restoring == w.restoring
    && (n.disk == w.disk || n.disk == r)
    && (n.alive ==> w.alive)
    && (ok ==> n.disk == r && n.alive)
    && (!ok && n.alive ==> n.disk == w.disk)
  }

  lemma StoreKeeps(w: World, r: Record, orig: map<Key, int>)
    requires Inv(w, orig) && Safe(w.nodes, r.originals, orig)
    ensures Inv(Store(w, r).0, orig)
    ensures StoreEffect(w, r, Store(w, r).0, Store(w, r).1)
  {
    hide Safe, Ordered;
  }

  /** Nothing but node values moved. */
  ghost predicate NodesOnly(w: World, n: World) {
    n.disk == w.disk && n.restoring == w.restoring && (n.alive ==> w.alive)
  }

  /** Writing one node keeps the invariant when it is journaled; success sets exactly that value. */
  lemma WriteNodeKeeps(w: World, k: Key, v: int, orig: map<Key, int>)
    requires Inv(w, orig)
    requires Reversible(k) ==> k in w.disk.originals
    ensures var (n, ok) := WriteNode(w, k, v);
      && Inv(n, orig) && NodesOnly(w, n)
      && (forall j :: j != k ==> (j in n.nodes <==> j in w.nodes) && (j in n.nodes ==> n.nodes[j] == w.nodes[j]))
      && (ok ==> n.alive && k in n.nodes && n.nodes[k] == v)
  {
    hide Ordered;
    var n := WriteNode(w, k, v).0;
    forall j
      ensures NodeSafe(n.nodes, n.disk.originals, orig, j)
    {
      assert NodeSafe(w.nodes, w.disk.originals, orig, j);
    }
  }

  /** A node written outside restoration is in the durable journal, with its first-seen value, before the write. */
  lemma WriteKeeps(w: World, k: Key, v: int, orig: map<Key, int>)
    requires Inv(w, orig) && w.alive && !w.restoring
    ensures var (n, ok) := Write(w, k, v);
      && Inv(n, orig)
      && (Reversible(k) && k in w.nodes && k in n.nodes && n.nodes[k] != w.nodes[k] ==>
            k in orig && k in n.disk.originals && n.disk.originals[k] == orig[k])
      && (ok ==> k in n.nodes && n.nodes[k] == v)
      && n.disk.enabled == w.disk.enabled && n.disk.pending == w.disk.pending
      && !n.restoring
  {
    var (a, seen) := ReadNode(w, k);
    assert NodeSafe(w.nodes, w.disk.originals, orig, k);
    if Reversible(k) && k !in w.memory.originals {
      if seen.Some? {
        var o := a.memory.originals[k := seen.value];
        assert a.memory == a.disk;
        forall j
          ensures NodeSafe(a.nodes, o, orig, j)
        {
          assert NodeSafe(a.nodes, a.disk.originals, orig, j);
        }
        StoreKeeps(a, a.memory.(originals := o), orig);
        var (b, kept) := Remember(a, k, seen.value);
        if kept {
          WriteNodeKeeps(b, k, v, orig);
          assert NodeSafe(WriteNode(b, k, v).0.nodes, b.disk.originals, orig, k);
        }
      }
    } else {
      WriteNodeKeeps(w, k, v, orig);
      assert NodeSafe(WriteNode(w, k, v).0.nodes, w.disk.originals, orig, k);
    }
  }

  // ---------- putting back ----------

  /** Nodes already at their originals stay there. */
  ghost predicate KeepsBack(w: World, n: World, o: Originals) {
    forall k :: NodeBack(w.nodes, o, k) ==> NodeBack(n.nodes, o, k)
  }

  lemma PutBackOneKeeps(w: World, k: Key, orig: map<Key, int>)
    requires Inv(w, orig) && Reversible(k) && k in w.disk.originals
    ensures var (n, ok) := PutBackOne(w, k, w.disk.originals[k]);
      && Inv(n, orig) && NodesOnly(w, n)
      && (ok ==> n.alive && NodeBack(n.nodes, w.disk.originals, k) && KeepsBack(w, n, w.disk.originals))
  {
    var v := w.disk.originals[k];
    WriteNodeKeeps(w, k, v, orig);
    hide Inv, WriteNode, ReadNode;
  }

  lemma OthersAreBack(nodes: map<Key, int>, o: Originals, k: Key)
    ensures !(Reversible(k) && k in o) ==> NodeBack(nodes, o, k)
  {
  }

  /** A complete pass without failures leaves every visited node at its original. */
  lemma {:induction false} PutBackAllKeeps(w: World, ks: seq<Key>, orig: map<Key, int>)
    requires Inv(w, orig)
    ensures var (n, ok) := PutBackAll(w, w.disk.originals, ks);
      && Inv(n, orig) && NodesOnly(w, n)
      && (ok ==> KeepsBack(w, n, w.disk.originals))
      && (ok ==> forall k :: k in ks ==> NodeBack(n.nodes, w.disk.originals, k))
    decreases |ks|
  {
    hide Inv, NodeBack, PutBackOne;
    var o := w.disk.originals;
    if ks != [] {
      var k := ks[0];
      var (a, first) := if Reversible(k) && k in o then PutBackOne(w, k, o[k]) else (w, true);
      if Reversible(k) && k in o {
        PutBackOneKeeps(w, k, orig);
      }
      assert Inv(a, orig) && NodesOnly(w, a);
      PutBackAllKeeps(a, ks[1..], orig);
      var (b, rest) := PutBackAll(a, o, ks[1..]);
      if first && rest {
        OthersAreBack(a.nodes, o, k);
        assert forall j :: j in ks ==> j == k || j in ks[1..];
      }
    }
  }

  /** Opening a range writes an upper end only when that end is journaled too. */
  lemma OpenOneKeeps(w: World, k: Key, orig: map<Key, int>)
    requires Inv(w, orig) && k.Min? && k in w.disk.originals
    ensures var (n, ok) := OpenOne(w, k, w.disk.originals[k]);
      Inv(n, orig) && NodesOnly(w, n)
  {
    var v := w.disk.originals[k];
    var m := Max(k.id);
    var (a, top) := ReadNode(w, m);
    var (b, widened) := if top.Some? && v > top.value then WriteNode(a, m, v) else (a, true);
    if top.Some? && v > top.value {
      UnjournaledMaxFits(w, k, orig);
      WriteNodeKeeps(a, m, v, orig);
    }
    WriteNodeKeeps(b, k, v, orig);
    hide WriteNode, ReadNode, Inv;
  }

  /** An upper end that was never recorded is still its original, so it already admits the lower one. */
  lemma UnjournaledMaxFits(w: World, k: Key, orig: map<Key, int>)
    requires Inv(w, orig) && k.Min? && k in w.disk.originals && Max(k.id) in w.nodes
    ensures Max(k.id) !in w.disk.originals ==> w.disk.originals[k] <= w.nodes[Max(k.id)]
  {
    assert NodeSafe(w.nodes, w.disk.originals, orig, k);
    assert NodeSafe(w.nodes, w.disk.originals, orig, Max(k.id));
    assert Min(k.id) == k;
  }

  lemma {:induction false} OpenRangesKeeps(w: World, ks: seq<Key>, orig: map<Key, int>)
    requires Inv(w, orig)
    ensures var (n, ok) := OpenRanges(w, w.disk.originals, ks);
      Inv(n, orig) && NodesOnly(w, n)
    decreases |ks|
  {
    hide Inv, OpenOne;
    var o := w.disk.originals;
    if ks != [] {
      if ks[0].Min? && ks[0] in o {
        OpenOneKeeps(w, ks[0], orig);
      }
      var (a, first) := if ks[0].Min? && ks[0] in o then OpenOne(w, ks[0], o[ks[0]]) else (w, true);
      OpenRangesKeeps(a, ks[1..], orig);
    }
  }

  ghost predicate RestoreEffect(w: World, n: World, ok: bool) {
    n.disk == w.disk && !n.restoring && (n.alive ==> w.alive) && (ok ==> n.alive && Restored(n))
  }

  /** A restore that reports success has put every journaled node back; one that does not keeps the journal. */
  lemma RestoreReleasedKeeps(w: World, ks: seq<Key>, orig: map<Key, int>)
    requires Inv(w, orig) && w.alive && Covers(ks, w.disk.originals)
    ensures var (n, ok) := RestoreReleased(w, ks);
      Inv(n, orig) && RestoreEffect(w, n, ok)
  {
    var o := w.disk.originals;
    var (a, others) := Other(w.(restoring := true));
    assert Inv(a, orig) && a.disk == w.disk;
    OpenRangesKeeps(a, ks, orig);
    var (b, widened) := OpenRanges(a, o, ks);
    PutBackAllKeeps(b, ks, orig);
    var (c, put) := PutBackAll(b, o, ks);
    var (d, kept) := Other(c);
    assert Inv(d.(restoring := false), orig);
    hide OpenRanges, PutBackAll, Ordered, Safe;
    if put && kept {
      forall k
        ensures NodeBack(d.nodes, o, k)
      {
        assert k in ks ==> NodeBack(c.nodes, o, k);
      }
    }
  }

  ghost predicate ReleaseEffect(w: World, n: World, ok: bool) {
    && !n.restoring && Owed(n)
    && n.disk.enabled == w.disk.enabled && n.disk.originals == w.disk.originals
    && (ok ==> n.alive && Restored(n) && !n.disk.pending)
  }

  lemma ReleaseKeeps(w: World, ks: seq<Key>, orig: map<Key, int>)
    requires Inv(w, orig) && w.alive && Covers(ks, w.disk.originals)
    requires w.disk.pending
    ensures var (n, ok) := Release(w, ks);
      Inv(n, orig) && ReleaseEffect(w, n, ok)
  {
    RestoreReleasedKeeps(w, ks, orig);
    var (a, restored) := RestoreReleased(w, ks);
    if restored {
      StoreKeeps(a, a.memory.(pending := false), orig);
    }
    hide RestoreReleased, Safe, Ordered, Store, NodeBack;
  }

  /** Whatever goes wrong on the way, a disable never leaves the record disabled with nothing owed and nodes changed. */
  lemma WithdrawKeeps(w: World, ks: seq<Key>, orig: map<Key, int>)
    requires Inv(w, orig) && w.alive && Owed(w) && !w.restoring && Covers(ks, w.disk.originals)
    ensures var (n, ok) := Withdraw(w, ks);
      && Inv(n, orig) && Owed(n) && !n.restoring
      && (ok ==> n.alive && Restored(n) && !n.disk.enabled && !n.disk.pending)
  {
    StoreKeeps(w, w.memory.(pending := true), orig);
    var (a, noted) := SetReleasePending(w, true);
    assert Owed(a);
    if noted {
      StoreKeeps(a, a.memory.(enabled := false), orig);
      var (b, stopped) := SetIntent(a, false, a.memory.configured);
      if stopped {
        ReleaseKeeps(b, ks, orig);
      }
    }
    hide Release, Safe, Ordered, Store, NodeBack;
  }

  /** Noting palettes touches no node's entry. */
  ghost predicate SameNodes(w: World, n: World) {
    && n.nodes == w.nodes && n.restoring == w.restoring
    && n.disk.enabled == w.disk.enabled && n.disk.pending == w.disk.pending
    && (forall k :: Reversible(k) ==> (k in n.disk.originals <==> k in w.disk.originals))
    && (forall k :: Reversible(k) && k in w.disk.originals && k in n.disk.originals ==> n.disk.originals[k] == w.disk.originals[k])
  }

  lemma NoteKeeps(w: World, i: nat, v: int, orig: map<Key, int>)
    requires Inv(w, orig) && w.alive
    ensures var (n, ok) := Replace(w, Item(i), v);
      Inv(n, orig) && SameNodes(w, n) && (ok ==> n.alive)
  {
    var o := w.disk.originals[Item(i) := v];
    forall k
      ensures NodeSafe(w.nodes, o, orig, k)
    {
      assert NodeSafe(w.nodes, w.disk.originals, orig, k);
    }
    StoreKeeps(w, w.memory.(originals := o), orig);
    hide Safe, Ordered, Store;
  }

  lemma SameNodesOwed(w: World, n: World, ks: seq<Key>)
    requires SameNodes(w, n)
    ensures Owed(w) ==> Owed(n)
    ensures Covers(ks, w.disk.originals) ==> Covers(ks, n.disk.originals)
  {
    if Restored(w) {
      forall k
        ensures NodeBack(n.nodes, n.disk.originals, k)
      {
        assert NodeBack(w.nodes, w.disk.originals, k);
      }
    }
  }

  lemma {:induction false} CaptureResumeKeeps(w: World, items: seq<(nat, int)>, orig: map<Key, int>)
    requires Inv(w, orig) && w.alive
    ensures var (n, ok) := CaptureResume(w, items);
      Inv(n, orig) && SameNodes(w, n) && (ok ==> n.alive)
    decreases |items|
  {
    hide Inv, Replace;
    if items != [] {
      NoteKeeps(w, items[0].0, items[0].1, orig);
      var (a, kept) := Replace(w, Item(items[0].0), items[0].1);
      if kept {
        CaptureResumeKeeps(a, items[1..], orig);
      }
    }
  }

  /** A living process, in no restoration, whose record is true and covered by the listed keys. */
  ghost predicate Ready(w: World, ks: seq<Key>, orig: map<Key, int>) {
    Inv(w, orig) && w.alive && Owed(w) && !w.restoring && Covers(ks, w.disk.originals)
  }

  ghost predicate DisableEffect(n: World, ok: bool) {
    && Owed(n) && !n.restoring
    && (ok ==> n.alive && Restored(n) && !n.disk.enabled && !n.disk.pending)
  }

  lemma DisableKeeps(w: World, ks: seq<Key>, items: seq<(nat, int)>, orig: map<Key, int>)
    requires Inv(w, orig) && w.alive && Owed(w) && !w.restoring && Covers(ks, w.disk.originals)
    ensures var (n, ok) := Disable(w, ks, items);
      Inv(n, orig) && DisableEffect(n, ok)
  {
    var (a, captured) := if w.memory.enabled then CaptureResume(w, items) else (w, true);
    CaptureResumeKeeps(w, items, orig);
    assert SameNodes(w, a);
    SameNodesOwed(w, a, ks);
    if captured {
      WithdrawKeeps(a, ks, orig);
    }
    hide CaptureResume, Withdraw, Inv, Owed, Restored, Covers;
  }

  lemma ForgettingIsSafe(w: World, orig: map<Key, int>, o: Originals)
    requires Inv(w, orig)
    requires forall k :: k in o ==> k in w.disk.originals && o[k] == w.disk.originals[k]
    requires forall k :: k in w.disk.originals && k !in o ==> NodeBack(w.nodes, w.disk.originals, k)
    ensures Safe(w.nodes, o, orig)
  {
    forall k
      ensures NodeSafe(w.nodes, o, orig, k)
    {
      assert NodeSafe(w.nodes, w.disk.originals, orig, k);
    }
  }

  /** Originals are dropped only after every node is back, so dropping them loses nothing. */
  lemma StartOverKeeps(w: World, orig: map<Key, int>)
    requires Inv(w, orig) && w.alive && Restored(w) && !w.restoring
    ensures var (n, ok) := StartOver(w);
      && Inv(n, orig) && Owed(n) && !n.restoring
      && (ok ==> n.alive && n.disk == Record(true, false, map[], w.disk.pending))
  {
    var (a, cleared) := Other(w);
    assert Inv(a, orig);
    StoreKeeps(a, a.memory.(enabled := false, configured := false), orig);
    var (b, stopped) := if cleared then SetIntent(a, false, false) else (a, false);
    assert Restored(b);
    if stopped {
      ForgettingIsSafe(b, orig, map[]);
      StoreKeeps(b, b.memory.(originals := map[]), orig);
      var (c, emptied) := ClearOriginals(b);
      assert Restored(c);
      if emptied {
        StoreKeeps(c, c.memory.(enabled := true, configured := false), orig);
        assert Restored(SetIntent(c, true, false).0);
      }
    }
    hide Safe, Ordered, Store, NodeBack;
  }

  lemma ResetKeeps(w: World, ks: seq<Key>, items: seq<(nat, int)>, orig: map<Key, int>)
    requires Inv(w, orig) && w.alive && Owed(w) && !w.restoring && Covers(ks, w.disk.originals)
    ensures var (n, ok) := Reset(w, ks, items);
      && Inv(n, orig) && Owed(n) && !n.restoring
      && (ok ==> n.disk == Record(true, false, map[], false))
  {
    DisableKeeps(w, ks, items, orig);
    var (a, disabled) := Disable(w, ks, items);
    if disabled {
      StartOverKeeps(a, orig);
    }
    hide Disable, StartOver, Inv, Owed, Restored, Covers;
  }

  // ---------- enabling ----------

  /** A release is still under way: disabled, pending, and some journaled node is not back. */
  ghost predicate MidRelease(w: World) {
    !w.disk.enabled && w.disk.pending && !Restored(w)
  }

  lemma EnableKeeps(w: World, orig: map<Key, int>)
    requires Inv(w, orig) && w.alive && Owed(w) && !w.restoring
    ensures var (n, ok) := Enable(w);
      && Inv(n, orig) && !n.restoring
      && (ok ==> n.disk.enabled)
      && (ok || !MidRelease(w) ==> Owed(n))
  {
    var (a, resumed) := Other(w);
    assert Inv(a, orig);
    if resumed {
      StoreKeeps(a, a.memory.(pending := false), orig);
      var (b, cleared) := SetReleasePending(a, false);
      assert Restored(w) ==> Restored(b);
      if cleared {
        StoreKeeps(b, b.memory.(enabled := true), orig);
        assert Restored(w) ==> Restored(SetIntent(b, true, b.memory.configured).0);
      }
    }
    hide Safe, Ordered, Store, NodeBack;
  }

  /**
   * Enabling keeps the release promise at every step, whatever fails, exactly when it is not used
   * to cancel a release under way: it clears the pending flag before it saves the intent.
   */
  lemma EnableWindow(w: World, orig: map<Key, int>)
    requires Inv(w, orig) && w.alive && Owed(w) && !w.restoring
    ensures (forall s :: Owed(Enable(w.(script := s)).0)) <==> !MidRelease(w)
  {
    if MidRelease(w) {
      var s := Then(Fine, Then(Fine, Then(Dies(0, false), End)));
      var v := w.(script := s);
      var n := Enable(v).0;
      assert n.disk == w.disk.(pending := false) && n.nodes == w.nodes;
      var k :| !NodeBack(w.nodes, w.disk.originals, k);
      assert !NodeBack(n.nodes, n.disk.originals, k);
      assert !Owed(Enable(w.(script := s)).0);
    } else {
      forall s
        ensures Owed(Enable(w.(script := s)).0)
      {
        EnableKeeps(w.(script := s), orig);
      }
    }
  }

  /** A restart finishes a release that was under way, and success leaves nothing owed. */
  lemma BootKeeps(w: World, script: Script, ks: seq<Key>, orig: map<Key, int>)
    requires Inv(w, orig) && Owed(w) && Covers(ks, w.disk.originals)
    ensures var n := Boot(w, script, ks);
      && Inv(n, orig) && Owed(n) && !n.restoring
      && n.disk.enabled == w.disk.enabled && n.disk.originals == w.disk.originals
      && (w.disk.pending && !w.disk.enabled && !n.disk.pending ==> Restored(n))
  {
    var a := w.(memory := w.disk, restoring := false, alive := true, script := script);
    assert Inv(a, orig);
    assert Restored(w) ==> Restored(a);
    if a.memory.pending && !a.memory.enabled {
      ReleaseKeeps(a, ks, orig);
    }
    hide Release, Safe, Ordered, NodeBack;
  }

  // ---------- releasing some nodes early ----------

  lemma {:induction false} PutBackEachKeeps(w: World, ks: seq<Key>, orig: map<Key, int>)
    requires Inv(w, orig) && w.alive
    ensures var (n, ok) := PutBackEach(w, w.disk.originals, ks);
      && Inv(n, orig) && NodesOnly(w, n)
      && (ok ==> n.alive && KeepsBack(w, n, w.disk.originals))
      && (ok ==> forall k :: k in ks ==> NodeBack(n.nodes, w.disk.originals, k))
    decreases |ks|
  {
    hide Inv, NodeBack, PutBackOne;
    var o := w.disk.originals;
    if ks != [] {
      var k := ks[0];
      var (a, first) := if Reversible(k) && k in o then PutBackOne(w, k, o[k]) else (w, true);
      if Reversible(k) && k in o {
        PutBackOneKeeps(w, k, orig);
      }
      assert Inv(a, orig) && NodesOnly(w, a);
      if first {
        PutBackEachKeeps(a, ks[1..], orig);
        var (b, rest) := PutBackEach(a, o, ks[1..]);
        if rest {
          OthersAreBack(a.nodes, o, k);
          assert forall j :: j in ks ==> j == k || j in ks[1..];
        }
      }
    }
  }

  lemma {:induction false} WithoutIs(o: Originals, ks: seq<Key>)
    ensures forall k :: k in Without(o, ks) <==> k in o && k !in ks
    ensures forall k :: k in Without(o, ks) ==> Without(o, ks)[k] == o[k]
    decreases |ks|
  {
    if ks != [] {
      WithoutIs(o - {ks[0]}, ks[1..]);
      assert forall j :: j in ks <==> j == ks[0] || j in ks[1..];
    }
  }

  /** An entry is dropped only once its node has been read back at its original. */
  lemma ReleaseEarlyKeeps(w: World, ks: seq<Key>, orig: map<Key, int>)
    requires Inv(w, orig) && w.alive && w.disk.enabled && !w.restoring
    ensures var (n, ok) := ReleaseEarly(w, ks);
      && Inv(n, orig) && Owed(n) && !n.restoring && n.disk.enabled
      && (ok ==> n.disk.originals == Without(w.disk.originals, ks))
      && (ok ==> forall k :: k in ks && NodeHad(w, k) ==> k in n.nodes && n.nodes[k] == w.disk.originals[k])
  {
    PutBackEachKeeps(w, ks, orig);
    var o := w.disk.originals;
    var (a, put) := PutBackEach(w, o, ks);
    if put {
      var (b, saved) := Other(a);
      assert Inv(b, orig);
      if saved {
        WithoutIs(o, ks);
        ForgettingIsSafe(b, orig, Without(o, ks));
        StoreKeeps(b, b.memory.(originals := Without(o, ks)), orig);
        assert forall k :: k in ks && NodeHad(w, k) ==> NodeBack(b.nodes, o, k);
      }
    }
    hide PutBackEach, Safe, Ordered, Store, Without;
  }

  ghost predicate NodeHad(w: World, k: Key) {
    Reversible(k) && k in w.disk.originals
  }

  // ---------- runs ----------

  datatype Event =
    | Writing(key: Key, value: int)
    | Noting(item: nat, value: int)
    | Disabling(order: seq<Key>, items: seq<(nat, int)>)
    | Resetting(order: seq<Key>, items: seq<(nat, int)>)
    | Enabling
    | Returning(keys: seq<Key>)
    | Booting(script: Script, order: seq<Key>)
    | VendorChanges(key: Key, value: int)

  /** The vendor moves only nodes that are not journaled, keeping its own ranges in order. */
  ghost predicate VendorMay(w: World, orig: map<Key, int>, k: Key, v: int) {
    k in w.nodes && k !in w.disk.originals && Ordered(orig[k := v])
  }

  /** Commands other than transitions run only while the service is enabled; a restore visits the whole journal. */
  ghost predicate Happens(w: World, orig: map<Key, int>, e: Event) {
    match e
    case Writing(_, _) => w.alive && w.memory.enabled
    case Noting(_, _) => w.alive && w.memory.enabled
    case Disabling(order, _) => w.alive && Covers(order, w.disk.originals)
    case Resetting(order, _) => w.alive && Covers(order, w.disk.originals)
    case Enabling => w.alive
    case Returning(_) => w.alive && w.memory.enabled
    case Booting(_, order) => Covers(order, w.disk.originals)
    case VendorChanges(k, v) => VendorMay(w, orig, k, v)
  }

  ghost function Step(w: World, orig: map<Key, int>, e: Event): (World, map<Key, int>) {
    if !Happens(w, orig, e) then (w, orig)
    else match e
      case Writing(k, v) => (Write(w, k, v).0, orig)
      case Noting(i, v) => (Remember(w, Item(i), v).0, orig)
      case Disabling(order, items) => (Disable(w, order, items).0, orig)
      case Resetting(order, items) => (Reset(w, order, items).0, orig)
      case Enabling => (Enable(w).0, orig)
      case Returning(ks) => (ReleaseEarly(w, ks).0, orig)
      case Booting(script, order) => (Boot(w, script, order), orig)
      case VendorChanges(k, v) => (w.(nodes := w.nodes[k := v]), orig[k := v])
  }

  ghost function Run(w: World, orig: map<Key, int>, es: seq<Event>): (World, map<Key, int>)
    decreases |es|
  {
    if es == [] then (w, orig)
    else
      var (n, o) := Step(w, orig, es[0]);
      Run(n, o, es[1..])
  }

  /** No enable that cancels a release under way stops short. */
  ghost predicate NoCutEnable(w: World, orig: map<Key, int>, es: seq<Event>)
    decreases |es|
  {
    es == [] ||
    (&& (es[0].Enabling? && MidRelease(w) ==> Enable(w).1)
     && var (n, o) := Step(w, orig, es[0]);
        NoCutEnable(n, o, es[1..]))
  }

  ghost predicate Held(w: World, orig: map<Key, int>) {
    Inv(w, orig) && !w.restoring
  }

  lemma RememberItemKeeps(w: World, i: nat, v: int, orig: map<Key, int>)
    requires Held(w, orig) && w.alive && w.disk.enabled
    ensures Held(Remember(w, Item(i), v).0, orig) && Owed(Remember(w, Item(i), v).0)
  {
    NoteKeeps(w, i, v, orig);
    hide Inv, Restored;
  }

  lemma VendorKeeps(w: World, orig: map<Key, int>, k: Key, v: int)
    requires Held(w, orig) && VendorMay(w, orig, k, v)
    ensures Held(w.(nodes := w.nodes[k := v]), orig[k := v])
    ensures Owed(w) ==> Owed(w.(nodes := w.nodes[k := v]))
  {
    var n := w.(nodes := w.nodes[k := v]);
    var moved := orig[k := v];
    forall j
      ensures NodeSafe(n.nodes, n.disk.originals, moved, j)
    {
      assert NodeSafe(w.nodes, w.disk.originals, orig, j);
    }
    if Restored(w) {
      forall j
        ensures NodeBack(n.nodes, n.disk.originals, j)
      {
        assert NodeBack(w.nodes, w.disk.originals, j);
      }
    }
  }

  /** A first start: nothing recorded, every node as the vendor set it. */
  lemma FirstStartHolds(nodes: map<Key, int>, script: Script)
    requires Ordered(nodes)
    ensures var r := Record(true, false, map[], false);
      Held(World(r, r, nodes, false, true, script), nodes) && Owed(World(r, r, nodes, false, true, script))
  {
    var r := Record(true, false, map[], false);
    forall k
      ensures NodeSafe(nodes, r.originals, nodes, k)
    {
    }
  }

  lemma StepKeeps(w: World, orig: map<Key, int>, e: Event)
    requires Held(w, orig) && Owed(w)
    ensures var (n, o) := Step(w, orig, e);
      Held(n, o) && ((e.Enabling? && MidRelease(w) ==> Enable(w).1) ==> Owed(n))
  {
    if Happens(w, orig, e) {
      match e
      case Writing(k, v) => WriteKeeps(w, k, v, orig);
      case Noting(i, v) => RememberItemKeeps(w, i, v, orig);
      case Disabling(order, items) => DisableKeeps(w, order, items, orig);
      case Resetting(order, items) => ResetKeeps(w, order, items, orig);
      case Enabling => EnableKeeps(w, orig);
      case Returning(ks) => ReleaseEarlyKeeps(w, ks, orig);
      case Booting(script, order) => BootKeeps(w, script, order, orig);
      case VendorChanges(k, v) => VendorKeeps(w, orig, k, v);
    }
    hide Write, Remember, Disable, Reset, Enable, ReleaseEarly, Boot, Safe, Ordered, Restored, MidRelease, Covers;
  }

  /**
   * Over every run of writes, notes, disables, resets, enables, early releases and restarts, with
   * failures and process deaths at any step: a reversible node that differs from its first-seen
   * value has that value in the durable record; memory agrees with the record; and a record that
   * says disabled still owes the release or every journaled node is back.
   */
  lemma {:induction false} EveryRunKeeps(w: World, orig: map<Key, int>, es: seq<Event>)
    requires Held(w, orig) && Owed(w)
    requires NoCutEnable(w, orig, es)
    ensures var (n, o) := Run(w, orig, es);
      && Held(n, o) && Owed(n)
      && (forall k :: Reversible(k) && k in n.nodes ==>
            k in o && (n.nodes[k] != o[k] ==> k in n.disk.originals && n.disk.originals[k] == o[k]))
    decreases |es|
  {
    if es == [] {
      forall k | Reversible(k) && k in w.nodes
        ensures k in orig && (w.nodes[k] != orig[k] ==> k in w.disk.originals && w.disk.originals[k] == orig[k])
      {
        assert NodeSafe(w.nodes, w.disk.originals, orig, k);
      }
    } else {
      StepKeeps(w, orig, es[0]);
      var (n, o) := Step(w, orig, es[0]);
      EveryRunKeeps(n, o, es[1..]);
    }
    hide Step, Held, Owed, MidRelease, Enable;
  }

  // ---------- every write of a range ----------

  /** Nothing fails; the script may still run out, and the process stop, at any step. */
  predicate NoFailures(s: Script) {
    s.Then? ==> s.outcome.Fine? && NoFailures(s.rest)
  }

  /** A lower end is at its original. */
  ghost predicate Opened(nodes: map<Key, int>, orig: map<Key, int>, i: nat) {
    Min(i) in nodes && Min(i) in orig ==> nodes[Min(i)] == orig[Min(i)]
  }

  /** A failure-free write of `k` did what it should, or nothing because the process stopped. */
  ghost predicate WroteOrStopped(w: World, n: World, k: Key, v: int, ok: bool) {
    && NoFailures(n.script)
    && n.nodes == (if ok then w.nodes[k := v] else w.nodes)
    && (ok ==> k in w.nodes) && (!ok && k in w.nodes ==> !n.alive)
  }

  lemma WriteStops(w: World, k: Key, v: int)
    requires NoFailures(w.script)
    ensures WroteOrStopped(w, WriteNode(w, k, v).0, k, v, WriteNode(w, k, v).1)
  {
  }

  lemma ReadStops(w: World, k: Key)
    requires NoFailures(w.script)
    ensures var (n, seen) := ReadNode(w, k);
      && n.nodes == w.nodes && NoFailures(n.script)
      && (seen.Some? ==> k in w.nodes && seen.value == w.nodes[k]) && (seen.None? && k in w.nodes ==> !n.alive)
  {
  }

  lemma DeadWrites(w: World, k: Key, v: int)
    requires !w.alive
    ensures WriteNode(w, k, v).0.nodes == w.nodes && !WriteNode(w, k, v).0.alive && !WriteNode(w, k, v).1
  {
  }

  /** Opening one range passes only through ordered ranges, and its lower end is then at the original. */
  lemma OpenOneStaysOrdered(w: World, k: Key, orig: map<Key, int>)
    requires Inv(w, orig) && k.Min? && k in w.disk.originals && NoFailures(w.script) && Ordered(w.nodes)
    ensures var n := OpenOne(w, k, w.disk.originals[k]).0;
      && Ordered(n.nodes) && NoFailures(n.script)
      && (n.alive ==> Opened(n.nodes, orig, k.id))
      && forall i :: Opened(w.nodes, orig, i) ==> Opened(n.nodes, orig, i)
  {
    var v, m := w.disk.originals[k], Max(k.id);
    assert NodeSafe(w.nodes, w.disk.originals, orig, k);
    assert Min(k.id) == k;
    ReadStops(w, m);
    var (a, top) := ReadNode(w, m);
    WriteStops(a, m, v);
    var (b, widened) := if top.Some? && v > top.value then WriteNode(a, m, v) else (a, true);
    WriteStops(b, k, v);
    if !b.alive { DeadWrites(b, k, v); }
    hide ReadNode, WriteNode, NoFailures, Inv;
  }

  lemma {:induction false} OpenRangesStayOrdered(w: World, ks: seq<Key>, orig: map<Key, int>)
    requires Inv(w, orig) && NoFailures(w.script) && Ordered(w.nodes)
    ensures var n := OpenRanges(w, w.disk.originals, ks).0;
      && Ordered(n.nodes) && NoFailures(n.script)
      && (n.alive ==> forall i :: Min(i) in ks && Min(i) in w.disk.originals ==> Opened(n.nodes, orig, i))
      && forall i :: Opened(w.nodes, orig, i) ==> Opened(n.nodes, orig, i)
    decreases |ks|
  {
    hide Inv, OpenOne, NoFailures, Ordered, Opened;
    var o := w.disk.originals;
    if ks != [] {
      if ks[0].Min? && ks[0] in o {
        OpenOneKeeps(w, ks[0], orig);
        OpenOneStaysOrdered(w, ks[0], orig);
      }
      var (a, first) := if ks[0].Min? && ks[0] in o then OpenOne(w, ks[0], o[ks[0]]) else (w, true);
      OpenRangesKeeps(a, ks[1..], orig);
      OpenRangesStayOrdered(a, ks[1..], orig);
      assert forall k :: k in ks ==> k == ks[0] || k in ks[1..];
    }
  }

  /** With every lower end at its original, writing any node its original keeps every range ordered. */
  lemma PutBackOneStaysOrdered(w: World, k: Key, orig: map<Key, int>)
    requires Inv(w, orig) && Reversible(k) && k in w.disk.originals && NoFailures(w.script) && Ordered(w.nodes)
    requires w.alive ==> forall i :: Opened(w.nodes, orig, i)
    ensures var n := PutBackOne(w, k, w.disk.originals[k]).0;
      Ordered(n.nodes) && NoFailures(n.script) && (n.alive ==> forall i :: Opened(n.nodes, orig, i))
  {
    var v := w.disk.originals[k];
    assert NodeSafe(w.nodes, w.disk.originals, orig, k);
    assert Ordered(orig);
    WriteStops(w, k, v);
    var (a, written) := WriteNode(w, k, v);
    ReadStops(a, k);
    if !w.alive { DeadWrites(w, k, v); }
    hide Inv, ReadNode, NoFailures;
    forall i | Min(i) in a.nodes && Max(i) in a.nodes ensures a.nodes[Min(i)] <= a.nodes[Max(i)] {
      assert NodeSafe(w.nodes, w.disk.originals, orig, Min(i));
      assert NodeSafe(w.nodes, w.disk.originals, orig, Max(i));
      if w.alive { assert Opened(w.nodes, orig, i); }
    }
    if a.alive {
      forall i ensures Opened(a.nodes, orig, i) { assert Opened(w.nodes, orig, i); }
    }
  }

  lemma {:induction false} PutBackStaysOrdered(w: World, ks: seq<Key>, orig: map<Key, int>)
    requires Inv(w, orig) && NoFailures(w.script) && Ordered(w.nodes)
    requires w.alive ==> forall i :: Opened(w.nodes, orig, i)
    ensures Ordered(PutBackAll(w, w.disk.originals, ks).0.nodes)
    decreases |ks|
  {
    hide Inv, PutBackOne, NoFailures, Ordered, Opened;
    var o := w.disk.originals;
    if ks != [] {
      if Reversible(ks[0]) && ks[0] in o {
        PutBackOneKeeps(w, ks[0], orig);
        PutBackOneStaysOrdered(w, ks[0], orig);
      }
      var (a, first) := if Reversible(ks[0]) && ks[0] in o then PutBackOne(w, ks[0], o[ks[0]]) else (w, true);
      PutBackStaysOrdered(a, ks[1..], orig);
    }
  }

  /** A node without a journal entry is at its original, so its range needs no opening. */
  lemma UnjournaledIsOpened(w: World, orig: map<Key, int>, i: nat)
    requires Inv(w, orig)
    ensures Min(i) !in w.disk.originals ==> Opened(w.nodes, orig, i)
  {
    assert NodeSafe(w.nodes, w.disk.originals, orig, Min(i));
  }

  /**
   * While the originals are given back, in whatever order the record lists them, and wherever the
   * process stops, no frequency range is ever crossed, if none was before and none of the originals is.
   */
  lemma ReleaseStaysOrdered(w: World, ks: seq<Key>, orig: map<Key, int>)
    requires Inv(w, orig) && w.alive && Covers(ks, w.disk.originals) && NoFailures(w.script) && Ordered(w.nodes)
    ensures Ordered(RestoreReleased(w, ks).0.nodes)
  {
    var o := w.disk.originals;
    var (a, others) := Other(w.(restoring := true));
    assert Inv(a, orig) && a.disk == w.disk && a.nodes == w.nodes && NoFailures(a.script);
    OpenRangesKeeps(a, ks, orig);
    OpenRangesStayOrdered(a, ks, orig);
    var b := OpenRanges(a, o, ks).0;
    if b.alive {
      forall i ensures Opened(b.nodes, orig, i) { UnjournaledIsOpened(b, orig, i); }
    }
    PutBackStaysOrdered(b, ks, orig);
    hide OpenRanges, PutBackAll, Ordered, Inv;
  }
}
