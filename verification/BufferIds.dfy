/** Buffer identity (src/buffers.rs): an id per client buffer or staging slot, handed out when first submitted, and
    the views it was submitted to. */
module BufferIds {
  import opened Basics

  type ViewId = int
  type Id = n: nat | n <= 0xffff_ffff

  /** A client's buffer object, or a staging slot by its uid. */
  datatype BufferKey = Client(object: nat) | Staged(uid: nat)

  datatype Entry = Entry(id: Id, views: seq<ViewId>)

  datatype Ids = Ids(last: Id, byBuffer: map<BufferKey, Entry>)

  const NONE := Ids(0, map[])

  /** 0 is left unused, after wrapping too. */
  function NextId(last: Id): Id { Max((last + 1) % 0x1_0000_0000, 1) }

  function Noted(views: seq<ViewId>, v: ViewId): seq<ViewId> {
    if v in views then views else views + [v]
  }

  function EntryFor(ids: Ids, key: BufferKey): Entry {
    if key in ids.byBuffer then ids.byBuffer[key] else Entry(NextId(ids.last), [])
  }

  function Assigned(ids: Ids, key: BufferKey, v: ViewId): (Ids, Id) {
    var entry := EntryFor(ids, key);
    (Ids(if key in ids.byBuffer then ids.last else NextId(ids.last),
         ids.byBuffer[key := entry.(views := Noted(entry.views, v))]), entry.id)
  }

  function Removed(ids: Ids, key: BufferKey): Ids { ids.(byBuffer := ids.byBuffer - {key}) }

  function Except(views: seq<ViewId>, v: ViewId): seq<ViewId> {
    if views == [] then [] else (if views[0] != v then [views[0]] else []) + Except(views[1..], v)
  }

  ghost function Forgotten(ids: Ids, v: ViewId): Ids {
    ids.(byBuffer := map k | k in ids.byBuffer :: ids.byBuffer[k].(views := Except(ids.byBuffer[k].views, v)))
  }

  class BufferTable {
    var last: Id
    var byBuffer: map<BufferKey, Entry>

    ghost function Abs(): Ids
      reads this
    {
      Ids(last, byBuffer)
    }

    constructor ()
      ensures Abs() == NONE
    {
      last, byBuffer := 0, map[];
    }

    /** Afterwards the buffer has an entry listing the view; the id in it never changes while the entry is there. */
    method IdFor(key: BufferKey, v: ViewId) returns (id: Id)
      modifies this
      ensures (Abs(), id) == Assigned(old(Abs()), key, v)
    {
      if key !in byBuffer {
        last := (last + 1) % 0x1_0000_0000;
        if last == 0 { last := 1; }
        byBuffer := byBuffer[key := Entry(last, [])];
      }
      if v !in byBuffer[key].views {
        byBuffer := byBuffer[key := byBuffer[key].(views := byBuffer[key].views + [v])];
      }
      id := byBuffer[key].id;
      assert byBuffer == Assigned(old(Abs()), key, v).0.byBuffer;
    }

    /** The entry, if there was one, is handed over to the caller and forgotten. */
    method Destroyed(key: BufferKey) returns (entry: Option<Entry>)
      modifies this
      ensures Abs() == Removed(old(Abs()), key)
      ensures entry == if key in old(byBuffer) then Some(old(byBuffer)[key]) else None
    {
      entry := if key in byBuffer then Some(byBuffer[key]) else None;
      byBuffer := byBuffer - {key};
    }

    method Retain(views: seq<ViewId>, v: ViewId) returns (kept: seq<ViewId>)
      ensures kept == Except(views, v)
    {
      kept := [];
      var i := 0;
      while i < |views|
        invariant 0 <= i <= |views|
        invariant kept == Except(views[..i], v)
      {
        ExceptOneMore(views, i, v);
        if views[i] != v { kept := kept + [views[i]]; }
        i := i + 1;
      }
      assert views[..i] == views;
    }

    /** Afterwards no entry lists the view. */
    method ForgetView(v: ViewId)
      modifies this
      ensures Abs() == Forgotten(old(Abs()), v)
    {
      var left := byBuffer.Keys;
      hide Except;
      while left != {}
        invariant left <= old(byBuffer).Keys == byBuffer.Keys && last == old(last)
        invariant forall k :: k in left ==> byBuffer[k] == old(byBuffer)[k]
        invariant forall k :: k in byBuffer && k !in left ==> byBuffer[k] == Forgotten(old(Abs()), v).byBuffer[k]
        decreases left
      {
        var k := AnyOf(left);
        left := left - {k};
        var kept := Retain(byBuffer[k].views, v);
        byBuffer := byBuffer[k := byBuffer[k].(views := kept)];
      }
    }
  }

  lemma {:induction false} ExceptOneMore(views: seq<ViewId>, i: nat, v: ViewId)
    requires i < |views|
    ensures Except(views[..i + 1], v) == Except(views[..i], v) + if views[i] != v then [views[i]] else []
  {
    if i > 0 {
      assert views[..i][1..] == views[1..][..i - 1] && views[..i + 1][1..] == views[1..][..i];
      ExceptOneMore(views[1..], i - 1, v);
    }
  }

  lemma {:induction false} ExceptIs(views: seq<ViewId>, v: ViewId)
    ensures forall u :: u in Except(views, v) <==> u in views && u != v
  {
    if views != [] { ExceptIs(views[1..], v); }
  }
}

/** Which buffers the shell has imports of, view by view, over whole runs (src/submit.rs, submit_tree, retire_key;
    src/state.rs, ViewCreated and ViewDisposed). */
module Retirement {
  import opened Basics
  import opened BufferIds

  /** The table of ids, the views the server knows and those the shell has not disposed of, and what the shell was
      told: the ids each view's submissions named and the ids retired in it since it was created. */
  datatype Ledger = Ledger(
    ids: Ids,
    views: set<ViewId>,
    linked: set<ViewId>,
    submitted: set<(ViewId, Id)>,
    told: set<(ViewId, Id)>,
    retired: set<Id>,
    handed: nat)

  const START := Ledger(NONE, {}, {}, {}, {}, {}, 0)

  datatype Event =
    /** A view's layers get their ids, and are submitted unless one could not be prepared. */
    | Submit(view: ViewId, keys: seq<BufferKey>, prepared: bool)
    | Gone(key: BufferKey)
    | Created(view: ViewId)
    /** The shell disposes of the view; the server takes note of that later. */
    | Disposing(view: ViewId)
    | Disposed(view: ViewId)

  /** The layers' ids, in order. */
  function AssignAll(ids: Ids, keys: seq<BufferKey>, v: ViewId): (Ids, seq<Id>)
    decreases |keys|
  {
    if keys == [] then (ids, [])
    else
      var (ids', id) := Assigned(ids, keys[0], v);
      var (rest, more) := AssignAll(ids', keys[1..], v);
      (rest, [id] + more)
  }

  function NewKeys(ids: Ids, keys: seq<BufferKey>): set<BufferKey> {
    (set k | k in keys) - ids.byBuffer.Keys
  }

  ghost function Pairs(v: ViewId, ids: seq<Id>): set<(ViewId, Id)> { set i | i in ids :: (v, i) }

  ghost function Without(pairs: set<(ViewId, Id)>, v: ViewId): set<(ViewId, Id)> { set p | p in pairs && p.0 != v }

  ghost function Told(s: Ledger, e: Entry): set<(ViewId, Id)> {
    set v | v in e.views && v in s.views && v in s.linked :: (v, e.id)
  }

  ghost function Step(s: Ledger, e: Event): Ledger {
    match e
    case Submit(v, keys, prepared) =>
      if v !in s.views then s
      else
        var (ids, named) := AssignAll(s.ids, keys, v);
        s.(ids := ids, handed := s.handed + |NewKeys(s.ids, keys)|,
           submitted := if prepared && v in s.linked then s.submitted + Pairs(v, named) else s.submitted)
    case Gone(key) =>
      if key !in s.ids.byBuffer then s
      else
        var entry := s.ids.byBuffer[key];
        s.(ids := Removed(s.ids, key), told := s.told + Told(s, entry), retired := s.retired + {entry.id})
    case Created(v) =>
      s.(views := s.views + {v}, linked := s.linked + {v}, submitted := Without(s.submitted, v),
         told := Without(s.told, v))
    case Disposing(v) => s.(linked := s.linked - {v})
    case Disposed(v) => s.(views := s.views - {v}, linked := s.linked - {v}, ids := Forgotten(s.ids, v))
  }

  const ENOUGH: nat := 0xffff_ffff

  ghost predicate Distinct(ids: Ids) {
    && (forall k :: k in ids.byBuffer ==> 0 < ids.byBuffer[k].id <= ids.last)
    && forall j, k :: j in ids.byBuffer && k in ids.byBuffer && j != k ==> ids.byBuffer[j].id != ids.byBuffer[k].id
  }

  /** The live entry behind an id a view was submitted. */
  ghost predicate Backed(ids: Ids, v: ViewId, i: Id) {
    exists k :: k in ids.byBuffer && ids.byBuffer[k].id == i && v in ids.byBuffer[k].views
  }

  ghost predicate Kept(s: Ledger) {
    && s.handed == s.ids.last
    && Distinct(s.ids)
    && s.linked <= s.views
    && (forall i :: i in s.retired ==> i <= s.ids.last && forall k :: k in s.ids.byBuffer ==> s.ids.byBuffer[k].id != i)
    && (forall p :: p in s.submitted && p.0 in s.linked && p !in s.told ==> Backed(s.ids, p.0, p.1))
  }

  /** Handing out ids keeps the entries there are and gives the new ones ids never given before. */
  ghost predicate Extends(ids: Ids, ids': Ids) {
    && ids.last <= ids'.last
    && (forall k :: k in ids.byBuffer ==> k in ids'.byBuffer && ids'.byBuffer[k].id == ids.byBuffer[k].id)
    && (forall k, u :: k in ids.byBuffer && u in ids.byBuffer[k].views ==> u in ids'.byBuffer[k].views)
    && (forall k :: k in ids'.byBuffer && k !in ids.byBuffer ==> ids'.byBuffer[k].id > ids.last)
  }

  lemma ExtendsMore(a: Ids, b: Ids, c: Ids)
    requires Extends(a, b) && Extends(b, c)
    ensures Extends(a, c)
  {
  }

  lemma AssignedOne(ids: Ids, key: BufferKey, v: ViewId)
    requires Distinct(ids) && (key in ids.byBuffer || ids.last < ENOUGH)
    ensures var (ids', id) := Assigned(ids, key, v);
            && Distinct(ids') && Extends(ids, ids') && Backed(ids', v, id)
            && ids'.last == ids.last + (if key in ids.byBuffer then 0 else 1)
            && ids'.byBuffer.Keys == ids.byBuffer.Keys + {key}
  {
    var (ids', id) := Assigned(ids, key, v);
    assert key in ids'.byBuffer && ids'.byBuffer[key].id == id && v in ids'.byBuffer[key].views;
    assert Backed(ids', v, id);
    assert ids'.byBuffer == ids.byBuffer[key := ids'.byBuffer[key]];
    hide Backed, Assigned;
    if key in ids.byBuffer {
      KnownKept(ids, key, ids'.byBuffer[key]);
    } else {
      NewKept(ids, key, ids'.byBuffer[key]);
    }
  }

  lemma KnownKept(ids: Ids, key: BufferKey, entry: Entry)
    requires Distinct(ids) && key in ids.byBuffer && entry.id == ids.byBuffer[key].id
    requires forall u :: u in ids.byBuffer[key].views ==> u in entry.views
    ensures var ids' := ids.(byBuffer := ids.byBuffer[key := entry]); Distinct(ids') && Extends(ids, ids')
  {
  }

  lemma NewKept(ids: Ids, key: BufferKey, entry: Entry)
    requires Distinct(ids) && key !in ids.byBuffer && entry.id == ids.last + 1
    ensures var ids' := ids.(last := ids.last + 1, byBuffer := ids.byBuffer[key := entry]);
            Distinct(ids') && Extends(ids, ids')
  {
  }

  lemma StaysBacked(ids: Ids, ids': Ids, v: ViewId, i: Id)
    requires Extends(ids, ids') && Backed(ids, v, i)
    ensures Backed(ids', v, i)
  {
    var k :| k in ids.byBuffer && ids.byBuffer[k].id == i && v in ids.byBuffer[k].views;
    assert k in ids'.byBuffer && v in ids'.byBuffer[k].views;
  }

  lemma AssignFirst(ids: Ids, keys: seq<BufferKey>, v: ViewId)
    requires keys != []
    ensures var (ids', id) := Assigned(ids, keys[0], v);
            var (rest, more) := AssignAll(ids', keys[1..], v);
            AssignAll(ids, keys, v) == (rest, [id] + more)
  {
    hide Assigned;
  }

  lemma {:induction false} AssignedAll(ids: Ids, keys: seq<BufferKey>, v: ViewId)
    requires Distinct(ids) && ids.last + |NewKeys(ids, keys)| <= ENOUGH
    ensures var ids' := AssignAll(ids, keys, v).0;
            ids'.last == ids.last + |NewKeys(ids, keys)| && Distinct(ids') && Extends(ids, ids')
    decreases |keys|
  {
    if keys == [] {
      assert NewKeys(ids, keys) == {};
    } else {
      hide Distinct, Extends, Backed, Assigned, NewKeys, AssignAll;
      var ids' := Assigned(ids, keys[0], v).0;
      AssignFirst(ids, keys, v);
      if keys[0] !in ids.byBuffer { NewKeyCounts(ids, keys); }
      AssignedOne(ids, keys[0], v);
      NewKeysSplit(ids, ids', keys, v);
      AssignedAll(ids', keys[1..], v);
      ExtendsMore(ids, ids', AssignAll(ids', keys[1..], v).0);
    }
  }

  lemma NewKeyCounts(ids: Ids, keys: seq<BufferKey>)
    requires keys != [] && keys[0] !in ids.byBuffer
    ensures |NewKeys(ids, keys)| > 0
  {
    assert keys[0] in NewKeys(ids, keys);
  }

  /** Every layer's id has an entry listing the view. */
  lemma {:induction false} AssignedBacked(ids: Ids, keys: seq<BufferKey>, v: ViewId)
    requires Distinct(ids) && ids.last + |NewKeys(ids, keys)| <= ENOUGH
    ensures forall i :: i in AssignAll(ids, keys, v).1 ==> Backed(AssignAll(ids, keys, v).0, v, i)
    decreases |keys|
  {
    if keys != [] {
      hide Distinct, Extends, Backed, Assigned, NewKeys, AssignAll;
      var (ids', id) := Assigned(ids, keys[0], v);
      AssignFirst(ids, keys, v);
      if keys[0] !in ids.byBuffer { NewKeyCounts(ids, keys); }
      AssignedOne(ids, keys[0], v);
      NewKeysSplit(ids, ids', keys, v);
      AssignedAll(ids', keys[1..], v);
      AssignedBacked(ids', keys[1..], v);
      StaysBacked(ids', AssignAll(ids', keys[1..], v).0, v, id);
    }
  }

  lemma NewKeysSplit(ids: Ids, ids': Ids, keys: seq<BufferKey>, v: ViewId)
    requires keys != [] && ids'.byBuffer.Keys == ids.byBuffer.Keys + {keys[0]}
    ensures |NewKeys(ids, keys)| == |NewKeys(ids', keys[1..])| + if keys[0] in ids.byBuffer then 0 else 1
  {
    var all, rest := NewKeys(ids, keys), NewKeys(ids', keys[1..]);
    assert forall k :: k in keys <==> k == keys[0] || k in keys[1..];
    if keys[0] in ids.byBuffer {
      assert all == rest;
    } else {
      assert all == rest + {keys[0]};
    }
  }

  // ----- every step -----

  lemma SubmitKeeps(s: Ledger, e: Event)
    requires e.Submit? && Kept(s) && Step(s, e).handed <= ENOUGH
    ensures Kept(Step(s, e))
  {
    var v := e.view;
    if v in s.views {
      AssignedAll(s.ids, e.keys, v);
      AssignedBacked(s.ids, e.keys, v);
      var s' := Step(s, e);
      forall p | p in s'.submitted && p.0 in s'.linked && p !in s'.told ensures Backed(s'.ids, p.0, p.1) {
        if p in s.submitted { StaysBacked(s.ids, s'.ids, p.0, p.1); }
      }
      hide AssignAll, Backed;
    }
  }

  lemma GoneKeeps(s: Ledger, key: BufferKey)
    requires Kept(s)
    ensures Kept(Step(s, Gone(key)))
  {
    if key in s.ids.byBuffer {
      var s' := Step(s, Gone(key));
      var entry := s.ids.byBuffer[key];
      forall u | u in entry.views && u in s.linked ensures (u, entry.id) in Told(s, entry) {}
      forall p | p in s'.submitted && p.0 in s'.linked && p !in s'.told ensures Backed(s'.ids, p.0, p.1) {
        assert Backed(s.ids, p.0, p.1);
        var k :| k in s.ids.byBuffer && s.ids.byBuffer[k].id == p.1 && p.0 in s.ids.byBuffer[k].views;
        assert k in s'.ids.byBuffer;
      }
    }
  }

  lemma DisposedKeeps(s: Ledger, v: ViewId)
    requires Kept(s)
    ensures Kept(Step(s, Disposed(v)))
  {
    var s' := Step(s, Disposed(v));
    forall p | p in s'.submitted && p.0 in s'.linked && p !in s'.told ensures Backed(s'.ids, p.0, p.1) {
      assert Backed(s.ids, p.0, p.1);
      var k :| k in s.ids.byBuffer && s.ids.byBuffer[k].id == p.1 && p.0 in s.ids.byBuffer[k].views;
      ExceptIs(s.ids.byBuffer[k].views, v);
      assert k in s'.ids.byBuffer && p.0 in s'.ids.byBuffer[k].views;
    }
  }

  lemma StepKeeps(s: Ledger, e: Event)
    requires Kept(s) && Step(s, e).handed <= ENOUGH
    ensures Kept(Step(s, e))
  {
    hide Backed, AssignAll, Assigned;
    match e
    case Submit(_, _, _) => SubmitKeeps(s, e);
    case Gone(key) => GoneKeeps(s, key);
    case Created(_) =>
    case Disposing(_) =>
    case Disposed(v) => DisposedKeeps(s, v);
  }

  ghost predicate IsRun(states: seq<Ledger>, events: seq<Event>) {
    && |states| == |events| + 1
    && states[0] == START
    && forall i :: 0 <= i < |events| ==> states[i + 1] == Step(states[i], events[i])
  }

  lemma {:induction false} HandedGrows(states: seq<Ledger>, events: seq<Event>, i: nat, j: nat)
    requires IsRun(states, events) && i <= j <= |events|
    ensures states[i].handed <= states[j].handed && states[i].retired <= states[j].retired
  {
    hide AssignAll;
    if i < j { HandedGrows(states, events, i, j - 1); }
  }

  /** With fewer ids handed out than there are: at every point of every run the live entries have distinct ids, none of
      them 0 or retired, and whatever id a view of the shell's was submitted and not told to drop is one the server
      still has an entry for, listing that view -- so it will be told. */
  lemma {:induction false} NoImportForgotten(states: seq<Ledger>, events: seq<Event>, i: nat)
    requires IsRun(states, events) && i <= |events| && states[i].handed <= ENOUGH
    ensures Kept(states[i])
  {
    if i > 0 {
      HandedGrows(states, events, i - 1, i);
      NoImportForgotten(states, events, i - 1);
      StepKeeps(states[i - 1], events[i - 1]);
    }
  }

  /** No submission names an id retired before it. */
  lemma NeverResubmitted(states: seq<Ledger>, events: seq<Event>, i: nat, j: nat, v: ViewId, id: Id)
    requires IsRun(states, events) && i <= j < |events| && states[j + 1].handed <= ENOUGH
    requires id in states[i].retired
    requires events[j].Submit? && v == events[j].view && v in states[j].views
    ensures id !in AssignAll(states[j].ids, events[j].keys, v).1
  {
    HandedGrows(states, events, i, j);
    HandedGrows(states, events, i, j + 1);
    NoImportForgotten(states, events, j + 1);
    HandedGrows(states, events, j, j + 1);
    NoImportForgotten(states, events, j);
    AssignedBacked(states[j].ids, events[j].keys, v);
    hide AssignAll;
  }

  /** A buffer that goes is retired in just the views it was submitted to that are still there to be told. */
  lemma GoneTellsAll(states: seq<Ledger>, events: seq<Event>, i: nat, v: ViewId, key: BufferKey)
    requires IsRun(states, events) && i < |events| && states[i].handed <= ENOUGH
    requires events[i] == Gone(key) && key in states[i].ids.byBuffer && v in states[i].linked
    requires (v, states[i].ids.byBuffer[key].id) in states[i].submitted
    ensures (v, states[i].ids.byBuffer[key].id) in states[i + 1].told
  {
    NoImportForgotten(states, events, i);
    var s, entry := states[i], states[i].ids.byBuffer[key];
    if (v, entry.id) !in s.told {
      assert Backed(s.ids, v, entry.id);
      assert (v, entry.id) in Told(s, entry);
    }
  }
}
