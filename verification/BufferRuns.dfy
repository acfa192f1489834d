/** What the events of a run come to for its buffers: which have an entry, for which views, and what each view of the
    shell's was submitted and told. */
module RetirementRuns {
  import opened Basics
  import opened BufferIds
  import opened Retirement

  // ----- one buffer -----

  ghost predicate NoRepeats(views: seq<ViewId>) { forall i, j :: 0 <= i < j < |views| ==> views[i] != views[j] }

  ghost predicate Lists(ids: Ids, k: BufferKey, v: ViewId) { k in ids.byBuffer && v in ids.byBuffer[k].views }

  /** A buffer keeps its id; a new one gets the next there is, 1 after the last. Its views are the ones it had and this
      one, each listed once, and other buffers are as they were. */
  lemma AssignedIs(ids: Ids, key: BufferKey, v: ViewId)
    ensures var (ids', id) := Assigned(ids, key, v);
            && key in ids'.byBuffer && ids'.byBuffer[key].id == id
            && (if key in ids.byBuffer then id == ids.byBuffer[key].id && ids'.last == ids.last
                else id == ids'.last == if ids.last == 0xffff_ffff then 1 else ids.last + 1)
            && (forall u :: Lists(ids', key, u) <==> u == v || Lists(ids, key, u))
            && (key in ids.byBuffer && NoRepeats(ids.byBuffer[key].views) ==> NoRepeats(ids'.byBuffer[key].views))
            && (key !in ids.byBuffer ==> NoRepeats(ids'.byBuffer[key].views))
            && forall k :: k != key ==>
                 && (k in ids'.byBuffer <==> k in ids.byBuffer)
                 && (k in ids.byBuffer ==> ids'.byBuffer[k] == ids.byBuffer[k])
  {
  }

  ghost predicate AllOnce(ids: Ids) { forall k :: k in ids.byBuffer ==> NoRepeats(ids.byBuffer[k].views) }

  // ----- a submission's buffers -----

  /** Afterwards the layers' buffers have entries too, which list the view, and every entry there was keeps its id. */
  lemma {:induction false} AssignedAre(ids: Ids, keys: seq<BufferKey>, v: ViewId, k: BufferKey)
    ensures var ids' := AssignAll(ids, keys, v).0;
            && (k in ids'.byBuffer <==> k in ids.byBuffer || k in keys)
            && (forall u :: Lists(ids', k, u) <==> Lists(ids, k, u) || (k in keys && u == v))
            && (k in ids.byBuffer ==> ids'.byBuffer[k].id == ids.byBuffer[k].id)
            && (AllOnce(ids) ==> AllOnce(ids'))
    decreases |keys|
  {
    if keys != [] {
      AssignedIs(ids, keys[0], v);
      AssignFirst(ids, keys, v);
      hide Assigned, NoRepeats, AssignAll;
      var ids1 := Assigned(ids, keys[0], v).0;
      AssignedAre(ids1, keys[1..], v, k);
      assert k in keys <==> k == keys[0] || k in keys[1..];
    }
  }

  /** The ids named are those the entries of the layers' buffers have afterwards. */
  lemma {:induction false} NamesAre(ids: Ids, keys: seq<BufferKey>, v: ViewId, id: Id)
    ensures var (ids', named) := AssignAll(ids, keys, v);
            id in named <==> exists k :: k in keys && k in ids'.byBuffer && ids'.byBuffer[k].id == id
    decreases |keys|
  {
    if keys != [] {
      AssignedIs(ids, keys[0], v);
      AssignFirst(ids, keys, v);
      hide Assigned, NoRepeats, AssignAll, Lists, AllOnce;
      var (ids1, first) := Assigned(ids, keys[0], v);
      var (ids', more) := AssignAll(ids1, keys[1..], v);
      AssignedAre(ids1, keys[1..], v, keys[0]);
      NamesAre(ids1, keys[1..], v, id);
      assert forall k :: k in keys <==> k == keys[0] || k in keys[1..];
    }
  }

  // ----- every step -----

  /** The event submits the buffer to the view: the server knows the view, and the buffer is one of its layers'. */
  ghost predicate Takes(s: Ledger, e: Event, k: BufferKey, v: ViewId) {
    e.Submit? && e.view == v && v in s.views && k in e.keys
  }

  lemma EntryStep(s: Ledger, e: Event, k: BufferKey, v: ViewId)
    ensures var s' := Step(s, e);
            && (k in s'.ids.byBuffer <==> (exists u :: Takes(s, e, k, u)) || (k in s.ids.byBuffer && e != Gone(k)))
            && (k in s.ids.byBuffer && k in s'.ids.byBuffer ==> s'.ids.byBuffer[k].id == s.ids.byBuffer[k].id)
            && (Lists(s'.ids, k, v) <==>
                  Takes(s, e, k, v) || (Lists(s.ids, k, v) && e != Gone(k) && e != Disposed(v)))
            && (AllOnce(s.ids) ==> AllOnce(s'.ids))
  {
    hide AssignAll, NoRepeats;
    match e
    case Submit(u, keys, _) =>
      AssignedAre(s.ids, keys, u, k);
      assert k in keys && u in s.views ==> Takes(s, e, k, u);
    case Gone(_) =>
    case Created(_) =>
    case Disposing(_) =>
    case Disposed(u) => ForgottenAre(s.ids, u, k, v);
  }

  lemma ForgottenAre(ids: Ids, v: ViewId, k: BufferKey, u: ViewId)
    ensures Lists(Forgotten(ids, v), k, u) <==> Lists(ids, k, u) && u != v
    ensures AllOnce(ids) ==> AllOnce(Forgotten(ids, v))
  {
    if k in ids.byBuffer { ExceptIs(ids.byBuffer[k].views, v); }
    hide Except;
    if AllOnce(ids) {
      forall j | j in ids.byBuffer ensures NoRepeats(Except(ids.byBuffer[j].views, v)) {
        assert NoRepeats(ids.byBuffer[j].views);
        ExceptOnce(ids.byBuffer[j].views, v);
      }
    }
  }

  lemma {:induction false} ExceptOnce(views: seq<ViewId>, v: ViewId)
    requires NoRepeats(views)
    ensures NoRepeats(Except(views, v))
  {
    if views != [] {
      var rest := views[1..];
      ExceptOnce(rest, v);
      ExceptIs(rest, v);
      assert forall i :: 0 <= i < |Except(rest, v)| ==> Except(rest, v)[i] in Except(rest, v);
      assert forall i :: 0 <= i < |rest| ==> rest[i] == views[i + 1];
    }
  }

  /** The shell gets the id with the event: for a buffer of the view's, all of whose layers could be prepared, with the
      view still there on the shell's side. */
  ghost predicate Names(s: Ledger, e: Event, s': Ledger, v: ViewId, id: Id) {
    && e.Submit? && e.prepared && v in s.linked
    && exists k :: Takes(s, e, k, v) && k in s'.ids.byBuffer && s'.ids.byBuffer[k].id == id
  }

  /** The id is given up, as its buffer is gone. */
  ghost predicate GivesUp(s: Ledger, e: Event, id: Id) {
    e.Gone? && e.key in s.ids.byBuffer && s.ids.byBuffer[e.key].id == id
  }

  /** And the view is told: it was submitted the buffer, and is there on both sides. */
  ghost predicate Tells(s: Ledger, e: Event, v: ViewId, id: Id) {
    GivesUp(s, e, id) && Lists(s.ids, e.key, v) && v in s.views && v in s.linked
  }

  lemma ShellStep(s: Ledger, e: Event, v: ViewId, id: Id)
    ensures var s' := Step(s, e);
            && (v in s'.views <==> e == Created(v) || (v in s.views && e != Disposed(v)))
            && (v in s'.linked <==> e == Created(v) || (v in s.linked && e != Disposing(v) && e != Disposed(v)))
            && ((v, id) in s'.submitted <==> Names(s, e, s', v, id) || ((v, id) in s.submitted && e != Created(v)))
            && ((v, id) in s'.told <==> Tells(s, e, v, id) || ((v, id) in s.told && e != Created(v)))
            && (id in s'.retired <==> GivesUp(s, e, id) || id in s.retired)
  {
    hide AssignAll, Forgotten;
    match e
    case Submit(u, keys, prepared) => NamesAre(s.ids, keys, u, id);
    case Gone(_) =>
    case Created(_) =>
    case Disposing(_) =>
    case Disposed(_) =>
  }

  // ----- runs -----

  lemma RunHolds(states: seq<Ledger>, events: seq<Event>, i: nat)
    requires IsRun(states, events) && i < |events|
    ensures states[i + 1] == Step(states[i], events[i]) && events[..i + 1][..i] == events[..i]
  {
  }

  lemma RunStarts(states: seq<Ledger>, events: seq<Event>)
    requires IsRun(states, events)
    ensures states[0] == START && |states| == |events| + 1
  {
  }

  /** One of the marks is before the point, and nothing that ends it lies between. */
  ghost predicate Stands(marks: set<nat>, ends: set<nat>, i: nat) {
    exists j :: j in marks && j < i && forall m :: j < m < i ==> m !in ends
  }

  lemma StandsMore(marks: set<nat>, ends: set<nat>, i: nat)
    requires i > 0
    ensures Stands(marks, ends, i) <==> i - 1 in marks || (Stands(marks, ends, i - 1) && i - 1 !in ends)
  {
    if Stands(marks, ends, i - 1) && i - 1 !in ends {
      var j :| j in marks && j < i - 1 && forall m :: j < m < i - 1 ==> m !in ends;
      assert forall m :: j < m < i ==> m !in ends;
    }
  }

  ghost function At(events: seq<Event>, e: Event): set<nat> { set j: nat | j < |events| && events[j] == e }

  ghost function TakenAt(states: seq<Ledger>, events: seq<Event>, k: BufferKey, v: ViewId): set<nat>
    requires |states| == |events| + 1
  {
    set j: nat | j < |events| && Takes(states[j], events[j], k, v)
  }

  ghost function NamedAt(states: seq<Ledger>, events: seq<Event>, v: ViewId, id: Id): set<nat>
    requires |states| == |events| + 1
  {
    set j: nat | j < |events| && Names(states[j], events[j], states[j + 1], v, id)
  }

  ghost function ToldAt(states: seq<Ledger>, events: seq<Event>, v: ViewId, id: Id): set<nat>
    requires |states| == |events| + 1
  {
    set j: nat | j < |events| && Tells(states[j], events[j], v, id)
  }

  ghost function GivenUpAt(states: seq<Ledger>, events: seq<Event>, id: Id): set<nat>
    requires |states| == |events| + 1
  {
    set j: nat | j < |events| && GivesUp(states[j], events[j], id)
  }

  /** A buffer's entry lists just the views it was submitted to, with neither gone since, and each of them once. */
  lemma {:induction false} ListedIff(states: seq<Ledger>, events: seq<Event>, i: nat, k: BufferKey, v: ViewId)
    requires IsRun(states, events) && i <= |events|
    ensures |states| == |events| + 1 && AllOnce(states[i].ids)
    ensures Lists(states[i].ids, k, v) <==>
              Stands(TakenAt(states, events, k, v), At(events, Gone(k)) + At(events, Disposed(v)), i)
  {
    hide IsRun, Step, Takes;
    RunStarts(states, events);
    if i > 0 {
      ListedIff(states, events, i - 1, k, v);
      RunHolds(states, events, i - 1);
      EntryStep(states[i - 1], events[i - 1], k, v);
      StandsMore(TakenAt(states, events, k, v), At(events, Gone(k)) + At(events, Disposed(v)), i);
      hide Lists, AllOnce, Stands;
    }
  }

  /** The server knows the views created and not disposed of since, and the shell those it is not disposing of either.
      What such a view was submitted, and was told to drop, since it was created are just the ids of its layers' buffers
      and of those of them that went while it was there; and an id is retired once its buffer has gone. */
  lemma {:induction false} ShellFollows(states: seq<Ledger>, events: seq<Event>, i: nat, v: ViewId, id: Id)
    requires IsRun(states, events) && i <= |events|
    ensures |states| == |events| + 1
    ensures v in states[i].views <==> Stands(At(events, Created(v)), At(events, Disposed(v)), i)
    ensures v in states[i].linked <==>
              Stands(At(events, Created(v)), At(events, Disposing(v)) + At(events, Disposed(v)), i)
    ensures (v, id) in states[i].submitted <==> Stands(NamedAt(states, events, v, id), At(events, Created(v)), i)
    ensures (v, id) in states[i].told <==> Stands(ToldAt(states, events, v, id), At(events, Created(v)), i)
    ensures id in states[i].retired <==> Stands(GivenUpAt(states, events, id), {}, i)
  {
    hide IsRun, Step, Names, Tells, GivesUp;
    RunStarts(states, events);
    if i > 0 {
      ShellFollows(states, events, i - 1, v, id);
      RunHolds(states, events, i - 1);
      ShellStep(states[i - 1], events[i - 1], v, id);
      StandsMore(At(events, Created(v)), At(events, Disposed(v)), i);
      StandsMore(At(events, Created(v)), At(events, Disposing(v)) + At(events, Disposed(v)), i);
      StandsMore(NamedAt(states, events, v, id), At(events, Created(v)), i);
      StandsMore(ToldAt(states, events, v, id), At(events, Created(v)), i);
      StandsMore(GivenUpAt(states, events, id), {}, i);
      hide Stands;
    }
  }
}
