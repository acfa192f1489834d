/** The file descriptors of a submission (src/submit.rs, frame_for, close_frame, prepare and submit_tree).

    Each plane's dma-buf is dup'd for the shell, planes of one file sharing one dup; whatever way a submission ends,
    each dup was given to the shell or closed, once. The kernel, the shell's answer and its fences are inputs. */
module PlaneFds {
  import opened Basics

  type Fd = int
  /** The device and inode behind an fd. */
  type FileId = (nat, nat)

  const MAX_PLANES: nat := 4
  const NO_FD: Fd := -1

  /** A plane's file, if it can be told, and whether its fd can be dup'd. */
  datatype Plane = Plane(file: Option<FileId>, dups: bool)

  /** What a layer shows: a dma-buf's planes, or an image that takes no fds. */
  datatype Spec = Dmabuf(planes: seq<Plane>) | Image

  datatype Prepared = PreparedFrame(planeFd: seq<Fd>) | PreparedImage

  /** The shell's answer to a submission: accepted or not, and which layers it gave a release fence back for. */
  datatype Answer = Answer(accepted: bool, fenced: seq<bool>)

  // ----- fds -----

  function FdsOf(fds: seq<Fd>): set<Fd> { set fd | fd in fds && fd >= 0 }

  function FdsOfLayer(p: Prepared): set<Fd> { if p.PreparedFrame? then FdsOf(p.planeFd) else {} }

  function FdsIn(prepared: seq<Prepared>): set<Fd> {
    if prepared == [] then {} else FdsIn(prepared[..|prepared| - 1]) + FdsOfLayer(prepared[|prepared| - 1])
  }

  /** What the module owns of the process's open fds, and what became of all it ever came to own. */
  class FdTable {
    var owned: set<Fd>
    ghost var made: multiset<Fd>
    ghost var closed: multiset<Fd>
    ghost var given: multiset<Fd>

    /** Every fd that came to the module is still its own, or was closed or given away: once, and only one of these. */
    ghost predicate Valid()
      reads this
    {
      made == multiset(owned) + closed + given
    }

    constructor ()
      ensures Valid() && owned == {}
    {
      owned, made, closed, given := {}, multiset{}, multiset{}, multiset{};
    }

    /** The kernel gives an fd that is not open. */
    method Dup() returns (fd: Fd)
      requires Valid()
      modifies this
      ensures Valid() && fd >= 0 && fd !in old(owned) && owned == old(owned) + {fd}
      ensures made == old(made) + multiset{fd} && closed == old(closed) && given == old(given)
    {
      ghost var unused := Unused(owned);
      assert unused >= 0 && unused !in owned;
      fd :| fd >= 0 && fd !in owned;
      owned := owned + {fd};
      made := made + multiset{fd};
    }

    method Close(fd: Fd)
      requires Valid() && fd in owned
      modifies this
      ensures Valid() && owned == old(owned) - {fd}
      ensures closed == old(closed) + multiset{fd} && made == old(made) && given == old(given)
    {
      owned := owned - {fd};
      closed := closed + multiset{fd};
    }

    /** Ownership passes to whom the fds are handed. */
    method Give(fds: set<Fd>)
      requires Valid() && fds <= owned
      modifies this
      ensures Valid() && owned == old(owned) - fds
      ensures given == old(given) + multiset(fds) && made == old(made) && closed == old(closed)
    {
      assert multiset(owned) == multiset(owned - fds) + multiset(fds);
      owned := owned - fds;
      given := given + multiset(fds);
    }

    /** Close a frame's fds; one may back several planes and is closed once. */
    method CloseFrame(planeFd: seq<Fd>)
      requires Valid() && FdsOf(planeFd) <= owned
      modifies this
      ensures Valid() && owned == old(owned) - FdsOf(planeFd)
      ensures made == old(made) && given == old(given)
    {
      var closedHere: set<Fd> := {};
      var i := 0;
      while i < |planeFd|
        invariant 0 <= i <= |planeFd|
        invariant Valid() && closedHere == FdsOf(planeFd[..i]) && owned == old(owned) - closedHere
        invariant made == old(made) && given == old(given)
      {
        assert planeFd[..i + 1] == planeFd[..i] + [planeFd[i]];
        assert planeFd[i] >= 0 ==> planeFd[i] in FdsOf(planeFd);
        if planeFd[i] >= 0 && planeFd[i] !in closedHere {
          closedHere := closedHere + {planeFd[i]};
          Close(planeFd[i]);
        }
        i := i + 1;
      }
      assert planeFd[..i] == planeFd;
    }
  }

  // ----- a frame -----

  /** Planes known to be of one file share one fd, and no others do. */
  ghost predicate Shared(planes: seq<Plane>, planeFd: seq<Fd>, count: nat)
    requires count <= |planes| && count <= |planeFd|
  {
    forall i, j :: 0 <= i < j < count ==>
      (planeFd[i] == planeFd[j] <==> planes[i].file.Some? && planes[i].file == planes[j].file)
  }

  /** The files dup'd so far, each by the plane it came from. */
  ghost predicate Found(planes: seq<Plane>, planeFd: seq<Fd>, count: nat, files: seq<(FileId, Fd)>, from: seq<nat>)
    requires count <= |planes| && count <= |planeFd|
  {
    && |from| == |files|
    && (forall k :: 0 <= k < |files| ==> from[k] < count && ByPlane(planes, planeFd, files[k], from[k]))
    && (forall i :: 0 <= i < count && planes[i].file.Some? ==> !Unseen(files, planes[i].file))
  }

  predicate ByPlane(planes: seq<Plane>, planeFd: seq<Fd>, f: (FileId, Fd), i: nat) {
    i < |planes| && i < |planeFd| && planes[i].file == Some(f.0) && planeFd[i] == f.1
  }

  /** No file dup'd so far is the one. */
  predicate Unseen(files: seq<(FileId, Fd)>, file: Option<FileId>) {
    file.None? || forall k :: 0 <= k < |files| ==> files[k].0 != file.value
  }

  /** Where the file was already dup'd. */
  method Find(files: seq<(FileId, Fd)>, file: Option<FileId>) returns (same: Option<nat>)
    ensures same.None? ==> Unseen(files, file)
    ensures same.Some? ==> same.value < |files| && file == Some(files[same.value].0)
  {
    if file.None? { return None; }
    var k := 0;
    while k < |files|
      invariant 0 <= k <= |files|
      invariant forall j :: 0 <= j < k ==> files[j].0 != file.value
    {
      if files[k].0 == file.value { return Some(k); }
      k := k + 1;
    }
    same := None;
  }

  /** The first planes each have an fd that can be dup'd, or share an earlier one's. */
  predicate CanDup(planes: seq<Plane>, n: nat) {
    forall i :: 0 <= i < n && i < |planes| ==>
      planes[i].dups || (planes[i].file.Some? && exists j :: 0 <= j < i && planes[j].file == planes[i].file)
  }

  /** A frame as far as its first planes. */
  ghost predicate Partial(planes: seq<Plane>, planeFd: seq<Fd>, i: nat, files: seq<(FileId, Fd)>, from: seq<nat>) {
    && i <= |planes| && i <= MAX_PLANES == |planeFd|
    && (forall j :: 0 <= j < MAX_PLANES ==> if j < i then planeFd[j] >= 0 else planeFd[j] == -1)
    && Shared(planes, planeFd, i) && Found(planes, planeFd, i, files, from)
    && CanDup(planes, i)
  }

  lemma FdsWritten(planeFd: seq<Fd>, i: nat, fd: Fd)
    requires i < |planeFd| && planeFd[i] < 0 && fd >= 0
    ensures FdsOf(planeFd[i := fd]) == FdsOf(planeFd) + {fd}
  {
    var written := planeFd[i := fd];
    assert written[i] == fd;
    forall f | f in FdsOf(planeFd) ensures f in FdsOf(written) {
      var j :| 0 <= j < |planeFd| && planeFd[j] == f;
      assert written[j] == f;
    }
  }

  lemma SharedPlane(planes: seq<Plane>, planeFd: seq<Fd>, i: nat, files: seq<(FileId, Fd)>, from: seq<nat>, k: nat)
    requires Partial(planes, planeFd, i, files, from) && i < |planes| && i < MAX_PLANES
    requires k < |files| && planes[i].file == Some(files[k].0)
    ensures Partial(planes, planeFd[i := files[k].1], i + 1, files, from)
    ensures FdsOf(planeFd[i := files[k].1]) == FdsOf(planeFd)
  {
    var j := from[k];
    assert ByPlane(planes, planeFd, files[k], j);
    FdsWritten(planeFd, i, planeFd[j]);
    assert planeFd[j] in FdsOf(planeFd);
    var written := planeFd[i := planeFd[j]];
    forall n | 0 <= n < |files| ensures ByPlane(planes, written, files[n], from[n]) {
      assert ByPlane(planes, planeFd, files[n], from[n]);
    }
    forall m | 0 <= m < i ensures written[m] == written[i] <==> planes[m].file == planes[i].file {
      if m < j { assert planeFd[m] == planeFd[j] <==> planes[m].file == planes[j].file; }
      if j < m { assert planeFd[j] == planeFd[m] <==> planes[j].file == planes[m].file; }
    }
    hide FdsOf, Unseen, ByPlane;
  }

  lemma OwnPlane(planes: seq<Plane>, planeFd: seq<Fd>, i: nat, files: seq<(FileId, Fd)>, from: seq<nat>, raw: Fd)
    requires Partial(planes, planeFd, i, files, from) && i < |planes| && i < MAX_PLANES
    requires Unseen(files, planes[i].file) && planes[i].dups && raw >= 0 && raw !in FdsOf(planeFd)
    ensures planes[i].file.None? ==> Partial(planes, planeFd[i := raw], i + 1, files, from)
    ensures planes[i].file.Some? ==>
              Partial(planes, planeFd[i := raw], i + 1, files + [(planes[i].file.value, raw)], from + [i])
    ensures FdsOf(planeFd[i := raw]) == FdsOf(planeFd) + {raw}
  {
    FdsWritten(planeFd, i, raw);
    var written := planeFd[i := raw];
    forall n | 0 <= n < |files| ensures ByPlane(planes, written, files[n], from[n]) {
      assert ByPlane(planes, planeFd, files[n], from[n]);
    }
    forall m | 0 <= m < i ensures written[m] != raw && !(planes[m].file.Some? && planes[m].file == planes[i].file) {
      assert planeFd[m] in FdsOf(planeFd);
    }
    if planes[i].file.Some? {
      var files' := files + [(planes[i].file.value, raw)];
      forall m | 0 <= m <= i && planes[m].file.Some? ensures !Unseen(files', planes[m].file) {
        if m < i {
          var n :| 0 <= n < |files| && files[n].0 == planes[m].file.value;
          assert files'[n].0 == planes[m].file.value;
        } else {
          assert files'[|files|].0 == planes[m].file.value;
        }
      }
    }
    hide FdsOf, Unseen, ByPlane;
  }

  lemma CannotDup(planes: seq<Plane>, planeFd: seq<Fd>, i: nat, files: seq<(FileId, Fd)>, from: seq<nat>)
    requires Partial(planes, planeFd, i, files, from) && i < |planes| && i < MAX_PLANES
    requires Unseen(files, planes[i].file) && !planes[i].dups
    ensures !CanDup(planes, MAX_PLANES)
  {
    hide Unseen, ByPlane;
  }

  /** The plane's fd: its file's if that was dup'd already, else a dup of its own. */
  method AddPlane(table: FdTable, planes: seq<Plane>, planeFd: seq<Fd>, i: nat, files: seq<(FileId, Fd)>,
                  ghost from: seq<nat>, ghost before: set<Fd>)
    returns (ok: bool, planeFd': seq<Fd>, files': seq<(FileId, Fd)>, ghost from': seq<nat>)
    requires table.Valid() && Partial(planes, planeFd, i, files, from) && i < |planes| && i < MAX_PLANES
    requires FdsOf(planeFd) !! before && table.owned == before + FdsOf(planeFd)
    modifies table
    ensures table.Valid() && table.given == old(table.given)
    ensures FdsOf(planeFd') !! before && table.owned == before + FdsOf(planeFd')
    ensures ok ==> Partial(planes, planeFd', i + 1, files', from')
    ensures !ok ==> !CanDup(planes, MAX_PLANES)
  {
    assert |planeFd| == MAX_PLANES;
    hide Partial, FdsOf, Found, Unseen;
    ok, planeFd', files', from' := true, planeFd, files, from;
    var same := Find(files, planes[i].file);
    if same.Some? {
      SharedPlane(planes, planeFd, i, files, from, same.value);
      planeFd' := planeFd[i := files[same.value].1];
    } else if planes[i].dups {
      var raw := table.Dup();
      OwnPlane(planes, planeFd, i, files, from, raw);
      if planes[i].file.Some? {
        files' := files + [(planes[i].file.value, raw)];
        from' := from + [i];
      }
      planeFd' := planeFd[i := raw];
    } else {
      CannotDup(planes, planeFd, i, files, from);
      ok := false;
    }
  }

  /** One fd for each of the first four planes, equal just for planes of one file. On failure the table is as it was. */
  method FrameFor(table: FdTable, planes: seq<Plane>) returns (frame: Option<seq<Fd>>)
    requires table.Valid()
    modifies table
    ensures table.Valid() && table.given == old(table.given)
    ensures frame.None? ==> table.owned == old(table.owned)
    ensures frame.Some? ==>
              && |frame.value| == MAX_PLANES
              && FdsOf(frame.value) !! old(table.owned)
              && table.owned == old(table.owned) + FdsOf(frame.value)
              && (forall i :: 0 <= i < MAX_PLANES ==>
                   if i < |planes| then frame.value[i] >= 0 else frame.value[i] == -1)
              && Shared(planes, frame.value, Min(|planes|, MAX_PLANES))
    ensures frame.Some? <==> CanDup(planes, MAX_PLANES)
  {
    hide Partial, FdsOf, Shared, CanDup;
    var planeFd: seq<Fd> := [NO_FD, NO_FD, NO_FD, NO_FD];
    var files: seq<(FileId, Fd)> := [];
    ghost var from: seq<nat> := [];
    NoPlanesYet(planes);
    var i := 0;
    while i < |planes| && i < MAX_PLANES
      invariant 0 <= i <= |planes| && i <= MAX_PLANES && Partial(planes, planeFd, i, files, from)
      invariant table.Valid() && table.given == old(table.given)
      invariant FdsOf(planeFd) !! old(table.owned) && table.owned == old(table.owned) + FdsOf(planeFd)
    {
      var ok;
      ok, planeFd, files, from := AddPlane(table, planes, planeFd, i, files, from, old(table.owned));
      if !ok {
        table.CloseFrame(planeFd);
        return None;
      }
      i := i + 1;
    }
    AllPlanes(planes, planeFd, i, files, from);
    frame := Some(planeFd);
  }

  lemma NoPlanesYet(planes: seq<Plane>)
    ensures FdsOf([NO_FD, NO_FD, NO_FD, NO_FD]) == {} && Partial(planes, [NO_FD, NO_FD, NO_FD, NO_FD], 0, [], [])
  {
  }

  lemma AllPlanes(planes: seq<Plane>, planeFd: seq<Fd>, i: nat, files: seq<(FileId, Fd)>, from: seq<nat>)
    requires Partial(planes, planeFd, i, files, from) && (i == |planes| || i == MAX_PLANES)
    ensures |planeFd| == MAX_PLANES && CanDup(planes, MAX_PLANES) && Shared(planes, planeFd, Min(|planes|, MAX_PLANES))
    ensures forall j :: 0 <= j < MAX_PLANES ==> if j < |planes| then planeFd[j] >= 0 else planeFd[j] == -1
  {
    hide Found, Shared;
  }

  // ----- a submission -----

  lemma NoLayers()
    ensures FdsIn([]) == {} && Separate([])
  {
  }

  lemma FdsInMore(prepared: seq<Prepared>, p: Prepared)
    ensures FdsIn(prepared + [p]) == FdsIn(prepared) + FdsOfLayer(p)
  {
    assert (prepared + [p])[..|prepared|] == prepared;
  }

  lemma {:induction false} InLayers(prepared: seq<Prepared>, fd: Fd)
    ensures fd in FdsIn(prepared) <==> exists i :: 0 <= i < |prepared| && fd in FdsOfLayer(prepared[i])
  {
    if prepared != [] {
      var rest := prepared[..|prepared| - 1];
      InLayers(rest, fd);
      if i :| 0 <= i < |rest| && fd in FdsOfLayer(rest[i]) { assert rest[i] == prepared[i]; }
      hide FdsOfLayer;
    }
  }

  /** No fd backs two layers. */
  ghost predicate Separate(prepared: seq<Prepared>) {
    forall i, j :: 0 <= i < j < |prepared| ==> FdsOfLayer(prepared[i]) !! FdsOfLayer(prepared[j])
  }

  lemma SeparateParts(prepared: seq<Prepared>, i: nat)
    requires Separate(prepared) && i < |prepared|
    ensures FdsOfLayer(prepared[i]) !! FdsIn(prepared[..i]) && FdsOfLayer(prepared[i]) <= FdsIn(prepared)
    ensures FdsIn(prepared[..i + 1]) == FdsIn(prepared[..i]) + FdsOfLayer(prepared[i])
  {
    hide FdsOfLayer, FdsIn;
    assert prepared[..i + 1] == prepared[..i] + [prepared[i]];
    FdsInMore(prepared[..i], prepared[i]);
    forall fd | fd in FdsOfLayer(prepared[i]) ensures fd in FdsIn(prepared) && fd !in FdsIn(prepared[..i]) {
      InLayers(prepared, fd);
      InLayers(prepared[..i], fd);
    }
  }

  lemma SeparateMore(prepared: seq<Prepared>, p: Prepared)
    requires Separate(prepared) && FdsOfLayer(p) !! FdsIn(prepared)
    ensures Separate(prepared + [p])
  {
    hide FdsOfLayer, FdsIn;
    forall i, fd | 0 <= i < |prepared| && fd in FdsOfLayer(prepared[i]) ensures fd !in FdsOfLayer(p) {
      InLayers(prepared, fd);
    }
  }

  method ClosePrepared(table: FdTable, p: Prepared)
    requires table.Valid() && FdsOfLayer(p) <= table.owned
    modifies table
    ensures table.Valid() && table.owned == old(table.owned) - FdsOfLayer(p)
    ensures table.made == old(table.made) && table.given == old(table.given)
  {
    if p.PreparedFrame? {
      table.CloseFrame(p.planeFd);
    }
  }

  method CloseAll(table: FdTable, prepared: seq<Prepared>)
    requires table.Valid() && Separate(prepared) && FdsIn(prepared) <= table.owned
    modifies table
    ensures table.Valid() && table.owned == old(table.owned) - FdsIn(prepared)
    ensures table.made == old(table.made) && table.given == old(table.given)
  {
    NoLayers();
    hide FdsOfLayer, FdsIn, Separate, FdTable.Valid;
    var i := 0;
    assert prepared[..0] == [];
    while i < |prepared|
      invariant 0 <= i <= |prepared|
      invariant table.Valid() && table.owned == old(table.owned) - FdsIn(prepared[..i])
      invariant table.made == old(table.made) && table.given == old(table.given)
    {
      SeparateParts(prepared, i);
      ClosePrepared(table, prepared[i]);
      i := i + 1;
    }
    assert prepared[..i] == prepared;
  }

  /** The layer as the shell gets it: an fd for each of the planes it takes, shared just by those of one file. */
  ghost predicate Describes(spec: Spec, p: Prepared) {
    match spec
    case Image => p.PreparedImage?
    case Dmabuf(planes) =>
      && p.PreparedFrame? && |p.planeFd| == MAX_PLANES
      && (forall i :: 0 <= i < MAX_PLANES ==> if i < |planes| then p.planeFd[i] >= 0 else p.planeFd[i] == -1)
      && Shared(planes, p.planeFd, Min(|planes|, MAX_PLANES))
  }

  predicate Preparable(spec: Spec) { spec.Image? || CanDup(spec.planes, MAX_PLANES) }

  method Prepare(table: FdTable, spec: Spec) returns (prepared: Option<Prepared>)
    requires table.Valid()
    modifies table
    ensures table.Valid() && table.given == old(table.given)
    ensures prepared.None? ==> table.owned == old(table.owned)
    ensures prepared.Some? ==>
              FdsOfLayer(prepared.value) !! old(table.owned)
                  && table.owned == old(table.owned) + FdsOfLayer(prepared.value)
    ensures prepared.Some? <==> Preparable(spec)
    ensures prepared.Some? ==> Describes(spec, prepared.value)
  {
    hide FdsOf, CanDup, Shared;
    match spec
    case Dmabuf(planes) =>
      var frame := FrameFor(table, planes);
      prepared := if frame.Some? then Some(PreparedFrame(frame.value)) else None;
    case Image =>
      prepared := Some(PreparedImage);
  }

  /** Prepare every layer, or none: when one cannot be prepared, the others' fds are closed. */
  method PrepareAll(table: FdTable, specs: seq<Spec>) returns (prepared: Option<seq<Prepared>>)
    requires table.Valid()
    modifies table
    ensures table.Valid() && table.given == old(table.given)
    ensures prepared.None? ==> table.owned == old(table.owned)
    ensures prepared.Some? ==>
              && |prepared.value| == |specs|
              && (forall i :: 0 <= i < |specs| ==> Describes(specs[i], prepared.value[i]))
              && Separate(prepared.value) && FdsIn(prepared.value) !! old(table.owned)
              && table.owned == old(table.owned) + FdsIn(prepared.value)
    ensures prepared.Some? <==> forall spec :: spec in specs ==> Preparable(spec)
  {
    NoLayers();
    hide FdsOfLayer, FdsIn, Separate, Preparable, Describes, FdTable.Valid;
    var done: seq<Prepared> := [];
    while |done| < |specs|
      invariant |done| <= |specs|
      invariant table.Valid() && table.given == old(table.given)
      invariant Separate(done) && FdsIn(done) !! old(table.owned) && table.owned == old(table.owned) + FdsIn(done)
      invariant forall i :: 0 <= i < |done| ==> Preparable(specs[i]) && Describes(specs[i], done[i])
      decreases |specs| - |done|
    {
      var spec := specs[|done|];
      assert spec in specs;
      var p := Prepare(table, spec);
      if p.None? {
        CloseAll(table, done);
        return None;
      }
      SeparateMore(done, p.value);
      FdsInMore(done, p.value);
      done := done + [p.value];
    }
    prepared := Some(done);
  }

  /** The shell hands over its fences: fds that were not open before. */
  method Receive(table: FdTable, fenced: seq<bool>) returns (release: seq<Fd>)
    requires table.Valid()
    modifies table
    ensures table.Valid() && table.given == old(table.given) && table.closed == old(table.closed)
    ensures |release| == |fenced|
    ensures forall i :: 0 <= i < |fenced| ==> if fenced[i] then release[i] >= 0 else release[i] == -1
    ensures FdsOf(release) !! old(table.owned) && table.owned == old(table.owned) + FdsOf(release)
  {
    release := [];
    while |release| < |fenced|
      invariant |release| <= |fenced|
      invariant table.Valid() && table.given == old(table.given) && table.closed == old(table.closed)
      invariant forall i :: 0 <= i < |release| ==> if fenced[i] then release[i] >= 0 else release[i] == -1
      invariant FdsOf(release) !! old(table.owned) && table.owned == old(table.owned) + FdsOf(release)
      decreases |fenced| - |release|
    {
      if fenced[|release|] {
        var fence := table.Dup();
        FdsAppend(release, fence);
        release := release + [fence];
      } else {
        FdsAppend(release, NO_FD);
        release := release + [NO_FD];
      }
    }
  }

  lemma FdsAppend(fds: seq<Fd>, fd: Fd)
    ensures FdsOf(fds + [fd]) == FdsOf(fds) + if fd >= 0 then {fd} else {}
  {
    var all := fds + [fd];
    assert all[|fds|] == fd;
    forall f | f in FdsOf(fds) ensures f in FdsOf(all) {
      var i :| 0 <= i < |fds| && fds[i] == f;
      assert all[i] == f;
    }
  }

  /** A whole submission. Every fd that came up is accounted for on every path: the module owns just what it owned
      before, having given or closed each of the others once (FdTable.Valid). What goes to the shell goes only once
      all layers are prepared and the view is still there, whatever the shell then says. */
  method Submit(table: FdTable, specs: seq<Spec>, linked: bool, answer: Answer)
    returns (shown: bool, ghost sent: seq<Prepared>, ghost fences: set<Fd>)
    requires table.Valid()
    modifies table
    ensures table.Valid() && table.owned == old(table.owned)
    ensures shown <==> (forall spec :: spec in specs ==> Preparable(spec)) && linked && answer.accepted
    ensures !linked || (exists spec :: spec in specs && !Preparable(spec)) ==> table.given == old(table.given)
    ensures linked && (forall spec :: spec in specs ==> Preparable(spec)) ==>
              && |sent| == |specs| && (forall i :: 0 <= i < |specs| ==> Describes(specs[i], sent[i]))
              && table.given == old(table.given) + multiset(FdsIn(sent))
                 + if shown then multiset(fences) else multiset{}
  {
    sent, fences := [], {};
    var prepared := PrepareAll(table, specs);
    hide FdsOf, FdsIn, Separate, Preparable, Describes;
    if prepared.None? {
      shown := false;
      return;
    }
    if !linked {
      // The view is gone: nobody takes the fds, so they are closed here.
      CloseAll(table, prepared.value);
      shown := false;
      return;
    }
    // Given away on success and failure alike.
    table.Give(FdsIn(prepared.value));
    var release := Receive(table, answer.fenced);
    sent, fences := prepared.value, FdsOf(release);
    if answer.accepted {
      // The event loop holds the fences until they signal.
      table.Give(FdsOf(release));
    } else {
      table.CloseFrame(release);
    }
    shown := answer.accepted;
  }
}
