/** Activating a restored profile (ADR 0010, ADR 0017): every move is in a journal before it is made, so
    that a swap cut short at any step can be rolled back.

    Every primitive of the disk may work, fail, or be the last thing that happens before a crash; which, and
    what a failing one leaves, is its fate, and a world fixes the fate of every step there will ever be.
    `Crashed` stops everything above it, and only the files and the journal are there at the next start. */
module Restore {
  import opened Wrappers

  datatype Root = Config | Media

  /** A path below the configuration folder or below the media folder, each on one volume. */
  datatype Path = Path(root: Root, names: seq<string>)

  /** What is at a path: a whole tree, or what a copy or a removal that stopped half-way left of one. */
  datatype Tree = Whole(content: int) | Cut

  type Files = map<Path, Tree>

  datatype Move = Move(live: Path, staged: Option<Path>, previous: Path, existed: bool)

  datatype State = Swapping | Activated

  datatype Journal = Journal(state: State, stamp: string, moves: seq<Move>)

  datatype JournalFile = NoJournal | Unreadable | Written(journal: Journal)

  datatype Outcome = Done | Failed | Crashed

  function Get(files: Files, path: Path): Option<Tree> {
    if path in files then Some(files[path]) else None
  }

  /** Every path but those named holds what it held. */
  ghost predicate SameExcept(f: Files, g: Files, changed: set<Path>) {
    forall path | path !in changed :: Get(g, path) == Get(f, path)
  }

  function Renamed(f: Files, from: Path, to: Path): Files
    requires from in f && from != to
  {
    f[to := f[from]] - {from}
  }

  /** What may be at a path a removal or a copy was stopped in. */
  predicate Remnant(now: Option<Tree>, whole: Option<Tree>) {
    now == None || now == Some(Cut) || now == whole
  }

  // ---- The moves ----

  const READY := ["restore-staging", "ready"]

  function PlanStore(files: Files, stamp: string, name: string): Move {
    var live := Path(Config, [name]);
    Move(live, if name == "meron.db" then Some(Path(Config, READY + [name])) else None,
         Path(Config, ["before-restore-" + stamp, name]), live in files)
  }

  function PlanMedia(files: Files, stamp: string, folder: string): Move {
    var live := Path(Media, [folder]);
    Move(live, Some(Path(Config, READY + ["media", folder])), Path(Media, [".before-restore-" + stamp, folder]), live in files)
  }

  /** The store and its journal files, and the two media folders a person fills. */
  function Plan(files: Files, stamp: string): seq<Move> {
    [PlanStore(files, stamp, "meron.db"), PlanStore(files, stamp, "meron.db-wal"), PlanStore(files, stamp, "meron.db-shm"),
     PlanMedia(files, stamp, "avatars"), PlanMedia(files, stamp, "wallpapers")]
  }

  /** No planned path is used for two things, and a previous copy is kept on the volume it came from. */
  ghost predicate Separate(moves: seq<Move>) {
    && (forall i, j | 0 <= i < |moves| && 0 <= j < |moves| :: moves[i].live != moves[j].previous)
    && (forall i, j | 0 <= i < j < |moves| :: moves[i].live != moves[j].live && moves[i].previous != moves[j].previous)
    && (forall i, j | 0 <= i < |moves| && 0 <= j < |moves| && moves[i].staged.Some? ::
          moves[i].staged.value != moves[j].live && moves[i].staged.value != moves[j].previous)
    && (forall i, j | 0 <= i < j < |moves| && moves[i].staged.Some? :: moves[i].staged != moves[j].staged)
    && (forall i | 0 <= i < |moves| :: moves[i].live.root == moves[i].previous.root)
  }

  /** What keeps a move's paths apart from another's: the name at the end of each, and how deep it is. */
  ghost predicate Shaped(m: Move, name: string) {
    && m.live.names == [name]
    && |m.previous.names| == 2 && m.previous.names[1] == name
    && m.live.root == m.previous.root
    && (m.staged.Some? ==> |m.staged.value.names| >= 3 && m.staged.value.names[|m.staged.value.names| - 1] == name)
  }

  lemma ShapedApart(a: Move, b: Move, name: string, other: string)
    requires Shaped(a, name) && Shaped(b, other)
    ensures a.live != b.previous
    ensures a.staged.Some? ==> a.staged.value != b.live && a.staged.value != b.previous
    ensures name != other ==> a.live != b.live && a.previous != b.previous && (a.staged.Some? ==> a.staged != b.staged)
  {}

  lemma PlanIsSeparate(files: Files, stamp: string)
    ensures Separate(Plan(files, stamp))
    ensures forall m | m in Plan(files, stamp) :: m.existed <==> m.live in files
  {
    hide Shaped;
    var moves := Plan(files, stamp);
    var names := ["meron.db", "meron.db-wal", "meron.db-shm", "avatars", "wallpapers"];
    assert |names[0]| == 8 && |names[1]| == |names[2]| == 12 && |names[3]| == 7 && |names[4]| == 10;
    assert names[1][9] != names[2][9];
    forall i | 0 <= i < 5 ensures Shaped(moves[i], names[i]) && moves[i].live.root == moves[i].previous.root {
      PlanShaped(files, stamp, names[i]);
    }
    forall i, j | 0 <= i < 5 && 0 <= j < 5
      ensures moves[i].live != moves[j].previous
      ensures moves[i].staged.Some? ==> moves[i].staged.value != moves[j].live && moves[i].staged.value != moves[j].previous
      ensures i < j ==> moves[i].live != moves[j].live && moves[i].previous != moves[j].previous
      ensures i < j && moves[i].staged.Some? ==> moves[i].staged != moves[j].staged
    {
      ShapedApart(moves[i], moves[j], names[i], names[j]);
    }
  }

  lemma PlanShaped(files: Files, stamp: string, name: string)
    ensures Shaped(PlanStore(files, stamp, name), name)
    ensures Shaped(PlanMedia(files, stamp, name), name)
  {}

  // ---- What a rollback would do ----

  /** What a rollback from these files puts at a move's live path. */
  function Restores(files: Files, move: Move): Option<Tree> {
    if !move.existed then None
    else if move.previous in files then Some(files[move.previous])
    else Get(files, move.live)
  }

  /** Each move can be undone to what was live in `original`, unless its aside copy is cut. */
  ghost predicate Tracks(files: Files, original: Files, moves: seq<Move>) {
    forall i | 0 <= i < |moves| ::
      && (moves[i].existed <==> moves[i].live in original)
      && (moves[i].existed ==> Restores(files, moves[i]) == Get(original, moves[i].live) || Get(files, moves[i].previous) == Some(Cut))
  }

  ghost predicate NoCutAside(files: Files, moves: seq<Move>) {
    forall i | 0 <= i < |moves| && moves[i].existed :: Get(files, moves[i].previous) != Some(Cut)
  }

  ghost predicate WholeLive(files: Files, moves: seq<Move>) {
    forall i | 0 <= i < |moves| :: Get(files, moves[i].live) != Some(Cut)
  }

  ghost predicate RestoresAll(files: Files, original: Files, moves: seq<Move>) {
    forall i | 0 <= i < |moves| :: Restores(files, moves[i]) == Get(original, moves[i].live)
  }

  ghost predicate LiveIs(files: Files, original: Files, moves: seq<Move>) {
    forall i | 0 <= i < |moves| :: Get(files, moves[i].live) == Get(original, moves[i].live)
  }

  /** From any point a swap reached, rolling back restores the previous profile exactly when no aside copy
      was left cut. */
  lemma RestoresAllIff(files: Files, original: Files, moves: seq<Move>)
    requires Tracks(files, original, moves) && WholeLive(original, moves)
    ensures RestoresAll(files, original, moves) <==> NoCutAside(files, moves)
  {
    if i :| 0 <= i < |moves| && moves[i].existed && Get(files, moves[i].previous) == Some(Cut) {
      assert Restores(files, moves[i]) == Some(Cut);
    }
  }

  /** What a rollback does from `now` is what it would have done from `before`, but where it left an aside
      copy cut. */
  ghost predicate Keeps(before: Files, now: Files, moves: seq<Move>) {
    forall i | 0 <= i < |moves| :: KeepsOne(before, now, moves[i])
  }

  lemma KeepsTracks(before: Files, now: Files, original: Files, moves: seq<Move>)
    requires Keeps(before, now, moves) && RestoresAll(before, original, moves)
    requires forall i | 0 <= i < |moves| :: moves[i].existed <==> moves[i].live in original
    ensures Tracks(now, original, moves)
  {}

  // ---- Primitives ----

  /** How a step ends; and if it does not work, whether it had effect all the same, and on the whole tree. */
  datatype Fate = Fate(outcome: Outcome, acts: bool, whole: bool)

  /** The fate of every step, and whether a rename within one volume always works: then what is moved aside,
      and back, is moved whole. */
  datatype World = World(fates: nat -> Fate, renames: bool)

  /** The disk, and how many steps it has made. */
  datatype Drive = Drive(files: Files, journal: JournalFile, at: nat)

  datatype Step = Step(drive: Drive, outcome: Outcome)

  function Ticked(d: Drive, files: Files): Drive {
    Drive(files, d.journal, d.at + 1)
  }

  function MakeParentOn(d: Drive, w: World): Step {
    Step(Ticked(d, d.files), w.fates(d.at).outcome)
  }

  /** Atomic: nothing is ever seen half-renamed. */
  function RenameOn(d: Drive, w: World, from: Path, to: Path): Step
    requires from != to
  {
    var fate := w.fates(d.at);
    if from !in d.files then Step(Ticked(d, d.files), if fate.outcome.Done? then Failed else fate.outcome)
    else
      var o := if fate.outcome.Failed? && w.renames && from.root == to.root then Done else fate.outcome;
      Step(Ticked(d, if o.Done? || (o.Crashed? && fate.acts) then Renamed(d.files, from, to) else d.files), o)
  }

  /** Removes a tree; stopped half-way it leaves part of it. */
  function RemoveOn(d: Drive, w: World, path: Path): Step {
    var fate := w.fates(d.at);
    Step(Ticked(d, if path !in d.files then d.files
                   else if fate.outcome.Done? || fate.acts then d.files - {path}
                   else if fate.whole then d.files
                   else d.files[path := Cut]),
         fate.outcome)
  }

  /** Copies a tree; stopped half-way it leaves part of it, and onto another tree it mixes the two. */
  function CopyOn(d: Drive, w: World, from: Path, to: Path): Step
    requires from != to
  {
    var fate := w.fates(d.at);
    if from !in d.files then Step(Ticked(d, d.files), if fate.outcome.Done? then Failed else fate.outcome)
    else
      Step(Ticked(d, if to in d.files then d.files[to := Cut]
                     else if fate.outcome.Done? || (fate.acts && fate.whole) then d.files[to := d.files[from]]
                     else if fate.acts then d.files[to := Cut]
                     else d.files),
           fate.outcome)
  }

  /** Written beside its target and renamed over it, so it is the old one or the new one. */
  function WriteJournalOn(d: Drive, w: World, next: Journal): Step {
    var fate := w.fates(d.at);
    Step(Drive(d.files, if fate.outcome.Done? || (fate.outcome.Crashed? && fate.acts) then Written(next) else d.journal, d.at + 1),
         fate.outcome)
  }

  function RemoveJournalOn(d: Drive, w: World): Step {
    var fate := w.fates(d.at);
    Step(Drive(d.files, if fate.outcome.Done? || (fate.outcome.Crashed? && fate.acts) then NoJournal else d.journal, d.at + 1),
         fate.outcome)
  }

  // ---- One move ----

  /** Renames, or copies and removes where a rename does not work. */
  function MoveAsideOn(d: Drive, w: World, from: Path, to: Path): Step
    requires from != to
  {
    var parent := MakeParentOn(d, w);
    if !parent.outcome.Done? then parent
    else
      var renamed := RenameOn(parent.drive, w, from, to);
      if !renamed.outcome.Failed? then renamed
      else
        var copied := CopyOn(renamed.drive, w, from, to);
        if copied.outcome.Crashed? then copied
        else if copied.outcome.Failed? then
          var removed := RemoveOn(copied.drive, w, to);
          if removed.outcome.Done? then removed.(outcome := Failed) else removed
        else RemoveOn(copied.drive, w, from)
  }

  /** The rename fails, the copy in its place fails, and so does removing what the copy left, part of which
      stays. */
  predicate Leaves(d: Drive, w: World, from: Path, to: Path)
    requires from != to
  {
    var renamed := RenameOn(MakeParentOn(d, w).drive, w, from, to);
    var copied := CopyOn(renamed.drive, w, from, to);
    var removed := RemoveOn(copied.drive, w, to);
    && MakeParentOn(d, w).outcome.Done? && renamed.outcome.Failed? && copied.outcome.Failed? && removed.outcome.Failed?
    && Get(removed.drive.files, to) == Some(Cut)
  }

  /** In the fates of the four steps: something was copied, it was not removed again, and not both steps stopped
      at the whole tree. */
  lemma LeavesIs(d: Drive, w: World, from: Path, to: Path)
    requires from != to && to !in d.files && from in d.files && d.files[from] != Cut
    ensures Leaves(d, w, from, to) <==>
              && w.fates(d.at).outcome.Done?
              && w.fates(d.at + 1).outcome.Failed? && !(w.renames && from.root == to.root)
              && w.fates(d.at + 2).outcome.Failed? && w.fates(d.at + 2).acts
              && w.fates(d.at + 3).outcome.Failed? && !w.fates(d.at + 3).acts
              && !(w.fates(d.at + 2).whole && w.fates(d.at + 3).whole)
  {}

  /** What each outcome leaves at the two paths, where nothing is at the target. */
  lemma MoveAsideDoes(d: Drive, w: World, from: Path, to: Path)
    requires from != to
    ensures var s := MoveAsideOn(d, w, from, to);
            && SameExcept(d.files, s.drive.files, {from, to}) && s.drive.journal == d.journal
            && (to !in d.files ==>
                  && (s.outcome.Done? ==> from in d.files && s.drive.files == Renamed(d.files, from, to))
                  && (!s.outcome.Done? ==> Halfway(d.files, s.drive.files, from, to))
                  && (from in d.files && w.renames && from.root == to.root ==>
                        s.drive.files == d.files || s.drive.files == Renamed(d.files, from, to))
                  && (!s.outcome.Crashed? && Get(d.files, from) != Some(Cut) ==>
                        (Get(s.drive.files, to) == Some(Cut) <==> Leaves(d, w, from, to))))
  {
    var s := MoveAsideOn(d, w, from, to);
    if to !in d.files && s.outcome.Done? {
      var want := Renamed(d.files, from, to);
      forall path ensures Get(s.drive.files, path) == Get(want, path) {}
      SameMaps(s.drive.files, want);
    }
  }

  function ApplyMoveOn(d: Drive, w: World, move: Move): Step
    requires Apart(move)
  {
    var aside := if move.existed then MoveAsideOn(d, w, move.live, move.previous) else Step(d, Done);
    if !aside.outcome.Done? then aside
    else if move.staged.Some? && move.staged.value in aside.drive.files then MoveAsideOn(aside.drive, w, move.staged.value, move.live)
    else aside
  }

  predicate Apart(move: Move) {
    move.live != move.previous && (move.staged.Some? ==> move.staged.value != move.live && move.staged.value != move.previous)
  }

  lemma ApplyMoveDoes(d: Drive, w: World, move: Move)
    requires Apart(move)
    ensures var s := ApplyMoveOn(d, w, move);
            && SameExcept(d.files, s.drive.files, Touched(move)) && s.drive.journal == d.journal
            && (Startable(d.files, move) ==>
                  && (if s.outcome.Done? then Applied(d.files, s.drive.files, move) else HalfApplied(d.files, s.drive.files, move))
                  && (w.renames && move.live.root == move.previous.root ==> Get(s.drive.files, move.previous) != Some(Cut))
                  && (!s.outcome.Crashed? ==>
                        (Get(s.drive.files, move.previous) == Some(Cut) <==> move.existed && Leaves(d, w, move.live, move.previous))))
  {
    hide MoveAsideOn, Leaves;
    if move.existed { MoveAsideDoes(d, w, move.live, move.previous); }
    var aside := if move.existed then MoveAsideOn(d, w, move.live, move.previous) else Step(d, Done);
    if move.staged.Some? { MoveAsideDoes(aside.drive, w, move.staged.value, move.live); }
  }

  /** Undoes one move, from whatever point it reached. */
  function PutBackOn(d: Drive, w: World, move: Move): Step
    requires move.live != move.previous
  {
    if !move.existed then RemoveOn(d, w, move.live)
    else if move.previous !in d.files then Step(d, Done)
    else
      var removed := RemoveOn(d, w, move.live);
      if !removed.outcome.Done? then removed else MoveAsideOn(removed.drive, w, move.previous, move.live)
  }

  lemma PutBackDoes(d: Drive, w: World, move: Move)
    requires move.live != move.previous
    ensures var s := PutBackOn(d, w, move);
            && SameExcept(d.files, s.drive.files, {move.live, move.previous}) && s.drive.journal == d.journal
            && (s.outcome.Done? ==> Get(s.drive.files, move.live) == Restores(d.files, move) && (move.existed ==> Get(s.drive.files, move.previous) == None))
            && KeepsOne(d.files, s.drive.files, move)
            && (w.renames && move.live.root == move.previous.root && Get(d.files, move.previous) != Some(Cut) ==>
                  Get(s.drive.files, move.previous) != Some(Cut))
  {
    hide MoveAsideOn, Leaves;
    if move.existed && move.previous in d.files {
      MoveAsideDoes(RemoveOn(d, w, move.live).drive, w, move.previous, move.live);
    }
  }

  // ---- The whole swap ----

  /** The moves below `i`, undone from the last. */
  function PutBackAllOn(d: Drive, w: World, moves: seq<Move>, i: nat): Step
    requires i <= |moves| && Separate(moves)
    decreases i
  {
    if i == 0 then Step(d, Done)
    else
      var s := PutBackOn(d, w, moves[i - 1]);
      if !s.outcome.Done? then s else PutBackAllOn(s.drive, w, moves, i - 1)
  }

  /** The aside copies from `i` on removed; what cannot be removed is left, and only a crash stops this. */
  function ForgetOn(d: Drive, w: World, moves: seq<Move>, i: nat): Step
    requires i <= |moves|
    decreases |moves| - i
  {
    if i == |moves| then Step(d, Done)
    else
      var s := RemoveOn(d, w, moves[i].previous);
      if s.outcome.Crashed? then s else ForgetOn(s.drive, w, moves, i + 1)
  }

  function RollbackOn(d: Drive, w: World, moves: seq<Move>): Step
    requires Separate(moves)
  {
    var put := PutBackAllOn(d, w, moves, |moves|);
    if !put.outcome.Done? then put
    else
      var forgot := ForgetOn(put.drive, w, moves, 0);
      if forgot.outcome.Crashed? then forgot else RemoveJournalOn(forgot.drive, w)
  }

  lemma {:induction false} PutBackAllDoes(before: Files, d: Drive, w: World, moves: seq<Move>, i: nat)
    requires i <= |moves| && Separate(moves) && HasPutBack(before, d.files, moves, i)
    requires Keeps(before, d.files, moves)
    requires w.renames && NoCutAside(before, moves) ==> NoCutAside(d.files, moves)
    ensures var s := PutBackAllOn(d, w, moves, i);
            && s.drive.journal == d.journal && Keeps(before, s.drive.files, moves)
            && (s.outcome.Done? ==> HasPutBack(before, s.drive.files, moves, 0))
            && (w.renames && NoCutAside(before, moves) ==> NoCutAside(s.drive.files, moves))
    decreases i
  {
    hide PutBackOn, HasPutBack, Keeps, NoCutAside, Separate;
    if i > 0 {
      SeparateOne(moves, i - 1);
      PutBackDoes(d, w, moves[i - 1]);
      var s := PutBackOn(d, w, moves[i - 1]);
      NotCutNow(before, d.files, moves, i - 1, w.renames);
      PutBackStep(before, d.files, s.drive.files, moves, i - 1, w.renames);
      if s.outcome.Done? { PutBackAllDoes(before, s.drive, w, moves, i - 1); }
    }
  }

  lemma SeparateOne(moves: seq<Move>, i: nat)
    requires i < |moves| && Separate(moves)
    ensures Apart(moves[i]) && moves[i].live.root == moves[i].previous.root
  {}

  lemma {:induction false} ForgetDoes(d: Drive, w: World, moves: seq<Move>, i: nat)
    requires i <= |moves|
    ensures var s := ForgetOn(d, w, moves, i);
            && !s.outcome.Failed? && s.drive.journal == d.journal
            && OnlyAside(d.files, s.drive.files, moves)
            && (forall path | Get(d.files, path) == None :: Get(s.drive.files, path) == None)
    decreases |moves| - i
  {
    if i < |moves| { ForgetDoes(RemoveOn(d, w, moves[i].previous).drive, w, moves, i + 1); }
  }

  /** Nothing but aside paths changes. */
  ghost predicate OnlyAside(f: Files, g: Files, moves: seq<Move>) {
    forall path | (forall i | 0 <= i < |moves| :: path != moves[i].previous) :: Get(g, path) == Get(f, path)
  }

  /** Done, every live path is restored and the journal gone; stopped anywhere, a later rollback does the same. */
  lemma RollbackDoes(d: Drive, w: World, moves: seq<Move>)
    requires Separate(moves)
    ensures var s := RollbackOn(d, w, moves);
            && (s.outcome.Done? ==> s.drive.journal == NoJournal && RolledBack(d.files, s.drive.files, moves))
            && (s.outcome.Failed? ==> s.drive.journal == d.journal)
            && (s.outcome.Crashed? ==> s.drive.journal == d.journal || (s.drive.journal == NoJournal && RolledBack(d.files, s.drive.files, moves)))
            && Keeps(d.files, s.drive.files, moves)
            && (w.renames && NoCutAside(d.files, moves) ==> NoCutAside(s.drive.files, moves))
  {
    assert HasPutBack(d.files, d.files, moves, |moves|);
    PutBackAllDoes(d.files, d, w, moves, |moves|);
    var put := PutBackAllOn(d, w, moves, |moves|);
    hide PutBackAllOn, HasPutBack, Keeps, NoCutAside, RolledBack, Separate, ForgetOn, OnlyAside;
    if put.outcome.Done? {
      ForgetDoes(put.drive, w, moves, 0);
      ForgettingKeeps(d.files, put.drive.files, ForgetOn(put.drive, w, moves, 0).drive.files, moves);
    }
  }

  /** The moves from `i` on; where one does not work, which it was and the disk before it. */
  datatype Swap = Swap(step: Step, before: Drive, failing: nat)

  function SwapOn(d: Drive, w: World, moves: seq<Move>, i: nat): Swap
    requires i <= |moves| && Separate(moves)
    decreases |moves| - i
  {
    if i == |moves| then Swap(Step(d, Done), d, i)
    else
      var s := ApplyMoveOn(d, w, moves[i]);
      if s.outcome.Done? then SwapOn(s.drive, w, moves, i + 1) else Swap(s, d, i)
  }

  lemma SwapNext(d: Drive, w: World, moves: seq<Move>, i: nat)
    requires i < |moves| && Separate(moves)
    ensures var s := ApplyMoveOn(d, w, moves[i]);
            SwapOn(d, w, moves, i) == if s.outcome.Done? then SwapOn(s.drive, w, moves, i + 1) else Swap(s, d, i)
  {}

  lemma SwapEnd(d: Drive, w: World, moves: seq<Move>)
    requires Separate(moves)
    ensures SwapOn(d, w, moves, |moves|) == Swap(Step(d, Done), d, |moves|)
  {}

  /** Removes the ready copy; what cannot be removed is left. */
  function RemoveReadyOn(d: Drive, w: World): Step {
    var fate := w.fates(d.at);
    var gone := set path | path in d.files && path.root == Config && READY <= path.names;
    Step(Ticked(d, if fate.outcome.Done? then d.files - gone else d.files), if fate.outcome.Crashed? then Crashed else Done)
  }

  datatype Ended = Ended(drive: Drive, result: Activation)

  function WentBackOn(d: Drive, w: World, moves: seq<Move>): Ended
    requires Separate(moves)
  {
    var rolled := RollbackOn(d, w, moves);
    Ended(rolled.drive, if rolled.outcome.Done? then WentBack else Stopped)
  }

  predicate IsReady(files: Files) {
    Path(Config, READY + ["READY.json"]) in files && Path(Config, READY + ["meron.db"]) in files
  }

  function ActivateOn(d: Drive, w: World, stamp: string): Ended {
    if d.journal != NoJournal || !IsReady(d.files) then Ended(d, Refused)
    else
      var moves := Plan(d.files, stamp);
      var begun := WriteJournalOn(d, w, Journal(Swapping, stamp, moves));
      if begun.outcome.Failed? then Ended(begun.drive, Refused)
      else if begun.outcome.Crashed? then Ended(begun.drive, Stopped)
      else
        PlanIsSeparate(d.files, stamp);
        var swap := SwapOn(begun.drive, w, moves, 0);
        if swap.step.outcome.Crashed? then Ended(swap.step.drive, Stopped)
        else if swap.step.outcome.Failed? then WentBackOn(swap.step.drive, w, moves)
        else FinishOn(swap.step.drive, w, stamp, moves)
  }

  /** What follows the last move. */
  function FinishOn(d: Drive, w: World, stamp: string, moves: seq<Move>): Ended
    requires Separate(moves)
  {
    var made := Journal(State.Activated, stamp, moves);
    var written := WriteJournalOn(d, w, made);
    if written.outcome.Crashed? then Ended(written.drive, Stopped)
    else if written.outcome.Failed? then WentBackOn(written.drive, w, moves)
    else
      var cleared := RemoveReadyOn(written.drive, w);
      if cleared.outcome.Crashed? then Ended(cleared.drive, Stopped) else Ended(cleared.drive, SwappedIn(made))
  }

  /** The swap as it goes in this world, from its journal on. */
  function SwapOf(d: Drive, w: World, stamp: string): Swap {
    PlanIsSeparate(d.files, stamp);
    var moves := Plan(d.files, stamp);
    SwapOn(WriteJournalOn(d, w, Journal(Swapping, stamp, moves)).drive, w, moves, 0)
  }

  /** The swap fails in a move whose aside copy is left cut. */
  ghost predicate LeavesCopy(d: Drive, w: World, stamp: string) {
    var moves, swap := Plan(d.files, stamp), SwapOf(d, w, stamp);
    PlanIsSeparate(d.files, stamp);
    && swap.step.outcome.Failed? && swap.failing < |moves|
    && moves[swap.failing].existed && Leaves(swap.before, w, moves[swap.failing].live, moves[swap.failing].previous)
  }

  /** From what a swap that does not crash leaves, rolling back restores everything exactly if no copy is left cut. */
  lemma {:induction false} SwapDoes(before: Files, d: Drive, w: World, moves: seq<Move>, i: nat)
    requires i <= |moves| && Separate(moves)
    requires forall j | 0 <= j < |moves| :: Startable(before, moves[j])
    requires HasSwapped(before, d.files, moves, i)
    requires NoCutAside(d.files, moves)
    ensures var swap := SwapOn(d, w, moves, i);
            && swap.step.drive.journal == d.journal && Tracks(swap.step.drive.files, before, moves)
            && (swap.step.outcome.Done? ==> HasSwapped(before, swap.step.drive.files, moves, |moves|) && NoCutAside(swap.step.drive.files, moves))
            && (!swap.step.outcome.Done? ==> swap.failing < |moves|)
            && (w.renames ==> NoCutAside(swap.step.drive.files, moves))
            && (swap.step.outcome.Failed? ==>
                  (NoCutAside(swap.step.drive.files, moves) <==>
                     !(moves[swap.failing].existed && Leaves(swap.before, w, moves[swap.failing].live, moves[swap.failing].previous))))
    decreases |moves| - i
  {
    hide ApplyMoveOn, HasSwapped, NoCutAside, Separate, Leaves, Tracks, Startable, Applied, HalfApplied;
    if i == |moves| {
      SwappedTracks(before, d.files, moves, i);
    } else {
      SeparateOne(moves, i);
      ApplyMoveDoes(d, w, moves[i]);
      var s := ApplyMoveOn(d, w, moves[i]);
      StillStartable(before, d.files, moves, i);
      ApplyStep(before, d.files, s.drive.files, moves, i, w.renames, s.outcome);
      OneMoveCuts(d.files, s.drive.files, moves, i);
      if s.outcome.Done? {
        AppliedIsWhole(d.files, s.drive.files, moves[i]);
        SwapDoes(before, s.drive, w, moves, i + 1);
      }
    }
  }

  lemma SwappedTracks(before: Files, f: Files, moves: seq<Move>, i: nat)
    requires HasSwapped(before, f, moves, i)
    ensures Tracks(f, before, moves)
  {}

  lemma StillStartable(before: Files, f: Files, moves: seq<Move>, i: nat)
    requires i < |moves| && Startable(before, moves[i]) && HasSwapped(before, f, moves, i)
    ensures Startable(f, moves[i])
  {}

  lemma AppliedIsWhole(f: Files, g: Files, move: Move)
    requires Startable(f, move) && Applied(f, g, move)
    ensures Get(g, move.previous) != Some(Cut)
  {}

  /** One move can leave only its own aside copy cut. */
  lemma OneMoveCuts(f: Files, g: Files, moves: seq<Move>, i: nat)
    requires i < |moves| && Separate(moves) && SameExcept(f, g, Touched(moves[i])) && NoCutAside(f, moves)
    ensures NoCutAside(g, moves) <==> !(moves[i].existed && Get(g, moves[i].previous) == Some(Cut))
  {
    forall j | 0 <= j < |moves| && j != i ensures Get(g, moves[j].previous) == Get(f, moves[j].previous) {
      assert moves[j].previous !in Touched(moves[i]);
    }
  }

  lemma SwapBegins(files: Files, stamp: string)
    requires Plannable(files, stamp)
    ensures var moves := Plan(files, stamp); HasSwapped(files, files, moves, 0) && NoCutAside(files, moves) && WholeLive(files, moves)
  {
    var moves := Plan(files, stamp);
    forall i | 0 <= i < |moves|
      ensures Get(files, moves[i].previous) == None && (moves[i].existed <==> moves[i].live in files) && Get(files, moves[i].live) != Some(Cut)
    {
      assert Startable(files, moves[i]);
    }
  }

  /** Failure atomicity: an activation that failed and was rolled back has left every live path as it was if
      and only if no aside copy was left cut, which takes a rename, the copy in its place and the removal of
      that copy all to fail. */
  lemma WentBackIff(d: Drive, w: World, stamp: string)
    requires Plannable(d.files, stamp) && ActivateOn(d, w, stamp).result.WentBack?
    ensures LiveIs(ActivateOn(d, w, stamp).drive.files, d.files, Plan(d.files, stamp)) <==> !LeavesCopy(d, w, stamp)
    ensures w.renames ==> !LeavesCopy(d, w, stamp)
    ensures ActivateOn(d, w, stamp).drive.journal == NoJournal
  {
    var moves := Plan(d.files, stamp);
    PlanIsSeparate(d.files, stamp);
    SwapBegins(d.files, stamp);
    var begun := WriteJournalOn(d, w, Journal(Swapping, stamp, moves)).drive;
    assert begun.files == d.files;
    SwapDoes(d.files, begun, w, moves, 0);
    var swap := SwapOn(begun, w, moves, 0);
    var from := if swap.step.outcome.Failed? then swap.step.drive else WriteJournalOn(swap.step.drive, w, Journal(State.Activated, stamp, moves)).drive;
    assert from.files == swap.step.drive.files;
    RollbackDoes(from, w, moves);
    hide SwapOn, RollbackOn, HasSwapped, Leaves, Separate;
    var after := ActivateOn(d, w, stamp).drive;
    assert RolledBack(from.files, after.files, moves);
    hide ActivateOn;
    RolledBackIff(d.files, from.files, after.files, moves);
  }

  lemma RolledBackIff(original: Files, atRollback: Files, files: Files, moves: seq<Move>)
    requires Tracks(atRollback, original, moves) && WholeLive(original, moves)
    requires RolledBack(atRollback, files, moves)
    ensures LiveIs(files, original, moves) <==> NoCutAside(atRollback, moves)
  {
    RestoresAllIff(atRollback, original, moves);
    if LiveIs(files, original, moves) {
      forall i | 0 <= i < |moves| ensures Restores(atRollback, moves[i]) == Get(original, moves[i].live) {
        assert Get(files, moves[i].live) == Restores(atRollback, moves[i]);
      }
    }
  }

  predicate JournalOf(journal: JournalFile, stamp: string, moves: seq<Move>) {
    journal == Written(Journal(Swapping, stamp, moves)) || journal == Written(Journal(State.Activated, stamp, moves))
  }

  lemma WentBackEnds(files: Files, d: Drive, w: World, stamp: string)
    requires Separate(Plan(files, stamp)) && JournalOf(d.journal, stamp, Plan(files, stamp))
    requires Tracks(d.files, files, Plan(files, stamp)) && (w.renames ==> NoCutAside(d.files, Plan(files, stamp)))
    ensures Ends(files, WentBackOn(d, w, Plan(files, stamp)), d.files, w, stamp)
  {
    var moves := Plan(files, stamp);
    RollbackDoes(d, w, moves);
    hide Plan, RollbackOn, Separate, Tracks, Keeps, NoCutAside, RolledBack;
    var rolled := RollbackOn(d, w, moves);
    if rolled.drive.journal != NoJournal { assert rolled.drive.journal == d.journal; }
  }

  lemma FinishEnds(files: Files, d: Drive, w: World, stamp: string)
    requires Separate(Plan(files, stamp)) && d.journal == Written(Journal(Swapping, stamp, Plan(files, stamp)))
    requires HasSwapped(files, d.files, Plan(files, stamp), |Plan(files, stamp)|) && NoCutAside(d.files, Plan(files, stamp))
    ensures Ends(files, FinishOn(d, w, stamp, Plan(files, stamp)), d.files, w, stamp)
  {
    var moves := Plan(files, stamp);
    var written := WriteJournalOn(d, w, Journal(State.Activated, stamp, moves));
    var cleared := RemoveReadyOn(written.drive, w);
    SwappedTracks(files, d.files, moves, |moves|);
    KeepsItself(d.files, moves);
    ReadyIsApart(files, d.files, cleared.drive.files, stamp);
    SwappedOrReady(files, d.files, cleared.drive.files, moves);
    if written.outcome.Failed? { WentBackEnds(files, written.drive, w, stamp); }
    hide Plan, RollbackOn, Separate, HasSwapped, Tracks, Keeps, NoCutAside, RolledBack, Swapped, RemoveReadyOn;
    assert cleared.drive.journal == written.drive.journal && written.drive.files == d.files;
  }

  /** Every way an activation ends, crashes included. `atRollback` is what a failed swap left for the rollback,
      or what a crash left. */
  lemma ActivateDoes(d: Drive, w: World, stamp: string) returns (atRollback: Files)
    ensures var e := ActivateOn(d, w, stamp);
            && (e.result.Refused? ==> e.drive.files == d.files && e.drive.journal == d.journal)
            && (d.journal != NoJournal ==> e.result.Refused?)
            && (Plannable(d.files, stamp) ==> Ends(d.files, e, atRollback, w, stamp))
  {
    atRollback := d.files;
    if Plannable(d.files, stamp) && d.journal == NoJournal && IsReady(d.files) {
      var moves := Plan(d.files, stamp);
      PlanIsSeparate(d.files, stamp);
      SwapBegins(d.files, stamp);
      SwappedTracks(d.files, d.files, moves, 0);
      KeepsItself(d.files, moves);
      var begun := WriteJournalOn(d, w, Journal(Swapping, stamp, moves));
      hide Plan, IsReady, RollbackOn, ApplyMoveOn, Separate, HasSwapped, Tracks, Keeps, NoCutAside, RolledBack, Swapped, Leaves, FinishOn, WentBackOn;
      if begun.outcome.Done? {
        assert begun.drive == Drive(d.files, Written(Journal(Swapping, stamp, moves)), d.at + 1);
        SwapDoes(d.files, begun.drive, w, moves, 0);
        var swap := SwapOn(begun.drive, w, moves, 0);
        atRollback := swap.step.drive.files;
        KeepsItself(atRollback, moves);
        hide SwapOn;
        if swap.step.outcome.Failed? { WentBackEnds(d.files, swap.step.drive, w, stamp); }
        else if swap.step.outcome.Done? { FinishEnds(d.files, swap.step.drive, w, stamp); }
      }
    }
  }

  lemma KeepsItself(f: Files, moves: seq<Move>)
    ensures Keeps(f, f, moves)
  {}

  /** Removing the ready copy touches nothing that was swapped. */
  lemma SwappedOrReady(before: Files, f: Files, g: Files, moves: seq<Move>)
    requires forall i | 0 <= i < |moves| ::
               Get(g, moves[i].live) == Get(f, moves[i].live) && Get(g, moves[i].previous) == Get(f, moves[i].previous)
    ensures HasSwapped(before, f, moves, |moves|) ==> Swapped(before, f, moves) && Swapped(before, g, moves)
    ensures Keeps(f, g, moves) && (NoCutAside(f, moves) ==> NoCutAside(g, moves))
  {}

  ghost predicate Ends(files: Files, e: Ended, atRollback: Files, w: World, stamp: string) {
    var moves := Plan(files, stamp);
    match e.result
    case Refused => true
    case SwappedIn(made) =>
      && made == Journal(State.Activated, stamp, moves) && e.drive.journal == Written(made) && Swapped(files, e.drive.files, moves)
    case WentBack =>
      && e.drive.journal == NoJournal
      && Tracks(atRollback, files, moves) && RolledBack(atRollback, e.drive.files, moves)
      && (w.renames ==> NoCutAside(atRollback, moves))
    case Stopped =>
      && (e.drive.journal == NoJournal ==>
            e.drive.files == files || (Tracks(atRollback, files, moves) && RolledBack(atRollback, e.drive.files, moves)))
      && (e.drive.journal != NoJournal ==> exists state :: e.drive.journal == Written(Journal(state, stamp, moves)))
      && (e.drive.journal != NoJournal ==> Keeps(atRollback, e.drive.files, moves) && Tracks(atRollback, files, moves))
      && (w.renames ==> NoCutAside(atRollback, moves) && NoCutAside(e.drive.files, moves))
  }

  // ---- What is live afterwards, path by path ----

  predicate SameAt(f: Files, path: Path, g: Files, other: Path) {
    Get(f, path) == Get(g, other)
  }

  /** The stamp is new and what is live is whole: nothing at the five aside paths, no half of a tree at the five
      live ones. */
  lemma PlannableIs(files: Files, stamp: string)
    ensures Plannable(files, stamp) <==>
              && Path(Config, ["before-restore-" + stamp, "meron.db"]) !in files
              && Path(Config, ["before-restore-" + stamp, "meron.db-wal"]) !in files
              && Path(Config, ["before-restore-" + stamp, "meron.db-shm"]) !in files
              && Path(Media, [".before-restore-" + stamp, "avatars"]) !in files
              && Path(Media, [".before-restore-" + stamp, "wallpapers"]) !in files
              && Get(files, Path(Config, ["meron.db"])) != Some(Cut)
              && Get(files, Path(Config, ["meron.db-wal"])) != Some(Cut)
              && Get(files, Path(Config, ["meron.db-shm"])) != Some(Cut)
              && Get(files, Path(Media, ["avatars"])) != Some(Cut)
              && Get(files, Path(Media, ["wallpapers"])) != Some(Cut)
  {
    var moves := Plan(files, stamp);
    if Plannable(files, stamp) {
      assert Startable(files, moves[0]) && Startable(files, moves[1]) && Startable(files, moves[2]);
      assert Startable(files, moves[3]) && Startable(files, moves[4]);
    }
  }

  /** The live paths of a plan are these five. */
  lemma LiveIsFive(files: Files, original: Files, planned: Files, stamp: string)
    ensures LiveIs(files, original, Plan(planned, stamp)) <==>
              && SameAt(files, Path(Config, ["meron.db"]), original, Path(Config, ["meron.db"]))
              && SameAt(files, Path(Config, ["meron.db-wal"]), original, Path(Config, ["meron.db-wal"]))
              && SameAt(files, Path(Config, ["meron.db-shm"]), original, Path(Config, ["meron.db-shm"]))
              && SameAt(files, Path(Media, ["avatars"]), original, Path(Media, ["avatars"]))
              && SameAt(files, Path(Media, ["wallpapers"]), original, Path(Media, ["wallpapers"]))
  {
    var moves := Plan(planned, stamp);
    if LiveIs(files, original, moves) {
      assert SameAt(files, moves[0].live, original, moves[0].live) && SameAt(files, moves[1].live, original, moves[1].live);
      assert SameAt(files, moves[2].live, original, moves[2].live) && SameAt(files, moves[3].live, original, moves[3].live);
      assert SameAt(files, moves[4].live, original, moves[4].live);
    }
  }

  /** The store and the two media folders come from the ready copy, and no journal files of the old store stay. */
  ghost predicate HoldsReady(f: Files, g: Files) {
    && Path(Config, ["restore-staging", "ready", "meron.db"]) in f
    && SameAt(g, Path(Config, ["meron.db"]), f, Path(Config, ["restore-staging", "ready", "meron.db"]))
    && Path(Config, ["meron.db-wal"]) !in g && Path(Config, ["meron.db-shm"]) !in g
    && SameAt(g, Path(Media, ["avatars"]), f, Path(Config, ["restore-staging", "ready", "media", "avatars"]))
    && SameAt(g, Path(Media, ["wallpapers"]), f, Path(Config, ["restore-staging", "ready", "media", "wallpapers"]))
  }

  /** All five old trees are kept aside under the stamp. */
  ghost predicate HoldsOld(f: Files, g: Files, stamp: string) {
    && SameAt(g, Path(Config, ["before-restore-" + stamp, "meron.db"]), f, Path(Config, ["meron.db"]))
    && SameAt(g, Path(Config, ["before-restore-" + stamp, "meron.db-wal"]), f, Path(Config, ["meron.db-wal"]))
    && SameAt(g, Path(Config, ["before-restore-" + stamp, "meron.db-shm"]), f, Path(Config, ["meron.db-shm"]))
    && SameAt(g, Path(Media, [".before-restore-" + stamp, "avatars"]), f, Path(Media, ["avatars"]))
    && SameAt(g, Path(Media, [".before-restore-" + stamp, "wallpapers"]), f, Path(Media, ["wallpapers"]))
  }

  /** A completed swap has made the ready profile live and kept the old one aside, and says so in the journal. */
  lemma SwappedInHolds(d: Drive, w: World, stamp: string)
    requires Plannable(d.files, stamp) && ActivateOn(d, w, stamp).result.SwappedIn?
    ensures HoldsReady(d.files, ActivateOn(d, w, stamp).drive.files)
    ensures HoldsOld(d.files, ActivateOn(d, w, stamp).drive.files, stamp)
    ensures var journal := ActivateOn(d, w, stamp).drive.journal;
            journal.Written? && journal.journal.state == State.Activated && journal.journal.stamp == stamp
  {
    var atRollback := ActivateDoes(d, w, stamp);
    var e := ActivateOn(d, w, stamp);
    assert IsReady(d.files);
    assert Swapped(d.files, e.drive.files, Plan(d.files, stamp));
    hide ActivateOn, Plannable;
    SwappedHolds(d.files, e.drive.files, stamp);
  }

  lemma SwappedHolds(f: Files, g: Files, stamp: string)
    requires Swapped(f, g, Plan(f, stamp)) && IsReady(f)
    ensures HoldsReady(f, g) && HoldsOld(f, g, stamp)
  {
    var moves := Plan(f, stamp);
    assert Applied(f, g, moves[0]) && Applied(f, g, moves[1]) && Applied(f, g, moves[2]);
    assert Applied(f, g, moves[3]) && Applied(f, g, moves[4]);
    assert READY + ["meron.db"] == ["restore-staging", "ready", "meron.db"];
    assert READY + ["media", "avatars"] == ["restore-staging", "ready", "media", "avatars"];
    assert READY + ["media", "wallpapers"] == ["restore-staging", "ready", "media", "wallpapers"];
  }

  lemma ActivateKeepsItsWord(d: Drive, w: World, stamp: string)
    ensures var e := ActivateOn(d, w, stamp);
            Plannable(d.files, stamp) ==>
              && (e.result.WentBack? ==> (LiveIs(e.drive.files, d.files, Plan(d.files, stamp)) <==> !LeavesCopy(d, w, stamp)))
              && (e.result.SwappedIn? ==> HoldsReady(d.files, e.drive.files) && HoldsOld(d.files, e.drive.files, stamp))
  {
    var e := ActivateOn(d, w, stamp);
    hide ActivateOn, Plannable, LiveIs, LeavesCopy, HoldsReady, HoldsOld;
    if Plannable(d.files, stamp) && e.result.WentBack? { WentBackIff(d, w, stamp); }
    if Plannable(d.files, stamp) && e.result.SwappedIn? { SwappedInHolds(d, w, stamp); }
  }

  /** Where it works, the ready copy is gone with all that is in it, and nothing else. */
  lemma ReadyIsRemoved(d: Drive, w: World)
    requires w.fates(d.at).outcome.Done?
    ensures forall path: Path :: Get(RemoveReadyOn(d, w).drive.files, path) ==
              if path.root == Config && ["restore-staging", "ready"] <= path.names then None else Get(d.files, path)
  {}

  /** And where that works, no aside copy is left of those forgotten. */
  lemma {:induction false} ForgottenAreGone(d: Drive, w: World, moves: seq<Move>, i: nat)
    requires i <= |moves| && WellFrom(w, d.at)
    ensures forall j | i <= j < |moves| :: Get(ForgetOn(d, w, moves, i).drive.files, moves[j].previous) == None
    decreases |moves| - i
  {
    if i < |moves| {
      var s := RemoveOn(d, w, moves[i].previous);
      ForgottenAreGone(s.drive, w, moves, i + 1);
      ForgetDoes(s.drive, w, moves, i + 1);
    }
  }

  /** An activation is refused, with nothing touched, exactly if there is a journal, no checked archive is ready, or
      the journal cannot be written. */
  lemma RefusedIff(d: Drive, w: World, stamp: string)
    ensures ActivateOn(d, w, stamp).result.Refused? <==>
              || d.journal != NoJournal
              || Path(Config, ["restore-staging", "ready", "READY.json"]) !in d.files
              || Path(Config, ["restore-staging", "ready", "meron.db"]) !in d.files
              || w.fates(d.at).outcome.Failed?
    ensures ActivateOn(d, w, stamp).result.Refused? ==>
              ActivateOn(d, w, stamp).drive.files == d.files && ActivateOn(d, w, stamp).drive.journal == d.journal
  {
    hide SwapOn, RollbackOn, Plan;
    assert READY + ["READY.json"] == ["restore-staging", "ready", "READY.json"];
    assert READY + ["meron.db"] == ["restore-staging", "ready", "meron.db"];
  }

  // ---- The other case happens ----

  /** A world in which the aside copy of the first move is left cut, and nothing else fails. */
  function Unlucky(at: nat): World {
    World(n => if n == at + 2 then Fate(Failed, false, false)       // the rename
               else if n == at + 3 then Fate(Failed, true, false)   // the copy, part of which is there
               else if n == at + 4 then Fate(Failed, false, false)  // the removal of that part
               else Fate(Done, true, true),
          false)
  }

  ghost predicate WellFrom(w: World, at: nat) {
    forall n: nat | n >= at :: w.fates(n).outcome.Done?
  }

  lemma PutBackWorks(d: Drive, w: World, move: Move)
    requires Apart(move) && WellFrom(w, d.at)
    ensures PutBackOn(d, w, move).outcome.Done? && PutBackOn(d, w, move).drive.at >= d.at
  {}

  lemma {:induction false} PutBackAllWorks(d: Drive, w: World, moves: seq<Move>, i: nat)
    requires i <= |moves| && Separate(moves) && WellFrom(w, d.at)
    ensures PutBackAllOn(d, w, moves, i).outcome.Done? && PutBackAllOn(d, w, moves, i).drive.at >= d.at
    decreases i
  {
    hide PutBackOn, Separate;
    if i > 0 {
      SeparateOne(moves, i - 1);
      PutBackWorks(d, w, moves[i - 1]);
      PutBackAllWorks(PutBackOn(d, w, moves[i - 1]).drive, w, moves, i - 1);
    }
  }

  lemma {:induction false} ForgetWorks(d: Drive, w: World, moves: seq<Move>, i: nat)
    requires i <= |moves| && WellFrom(w, d.at)
    ensures ForgetOn(d, w, moves, i).outcome.Done? && ForgetOn(d, w, moves, i).drive.at >= d.at
    decreases |moves| - i
  {
    if i < |moves| { ForgetWorks(RemoveOn(d, w, moves[i].previous).drive, w, moves, i + 1); }
  }

  lemma RollbackWorks(d: Drive, w: World, moves: seq<Move>)
    requires Separate(moves) && WellFrom(w, d.at)
    ensures RollbackOn(d, w, moves).outcome.Done?
  {
    PutBackAllWorks(d, w, moves, |moves|);
    ForgetWorks(PutBackAllOn(d, w, moves, |moves|).drive, w, moves, 0);
  }

  /** On every disk with a store to swap, the rollback then takes what was left for the previous store, although
      what is live was never touched, and reports that the previous profile is back. */
  lemma CutAsideIsTaken(d: Drive, stamp: string)
    requires d.journal == NoJournal && IsReady(d.files) && Plannable(d.files, stamp)
    requires Path(Config, ["meron.db"]) in d.files
    ensures var w, live := Unlucky(d.at), Path(Config, ["meron.db"]);
            && ActivateOn(d, w, stamp).result.WentBack? && LeavesCopy(d, w, stamp)
            && Get(ActivateOn(d, w, stamp).drive.files, live) == Some(Cut) != Get(d.files, live)
  {
    var w, moves := Unlucky(d.at), Plan(d.files, stamp);
    var move := moves[0];
    assert move == PlanStore(d.files, stamp, "meron.db") && Startable(d.files, move);
    PlanIsSeparate(d.files, stamp);
    var begun := WriteJournalOn(d, w, Journal(Swapping, stamp, moves));
    SeparateOne(moves, 0);
    LeavesIs(begun.drive, w, move.live, move.previous);
    var aside := MoveAsideOn(begun.drive, w, move.live, move.previous);
    assert aside.outcome.Failed? && aside.drive.at == d.at + 5;
    var swap := SwapOn(begun.drive, w, moves, 0);
    assert swap == Swap(aside, begun.drive, 0);
    assert WellFrom(w, aside.drive.at);
    RollbackWorks(aside.drive, w, moves);
    MoveAsideDoes(begun.drive, w, move.live, move.previous);
    RollbackDoes(aside.drive, w, moves);
    var rolled := RollbackOn(aside.drive, w, moves);
    assert RolledBack(aside.drive.files, rolled.drive.files, moves);
    assert Get(rolled.drive.files, moves[0].live) == Restores(aside.drive.files, moves[0]) == Some(Cut);
    hide RollbackOn, SwapOn, MoveAsideOn, Leaves, Separate, Plan, RolledBack;
  }

  /** Under `Crashed`, whatever the caller was doing stops there. */
  class Disk {
    var files: Files
    var journal: JournalFile
    var at: nat
    const world: World

    constructor (files: Files, journal: JournalFile, world: World)
      ensures View() == Drive(files, journal, 0) && this.world == world
    {
      this.files, this.journal, this.at, this.world := files, journal, 0, world;
    }

    function View(): Drive
      reads this
    {
      Drive(files, journal, at)
    }

    // ---- Primitives ----

    method MakeParent(path: Path) returns (o: Outcome)
      modifies this`at
      ensures Step(View(), o) == MakeParentOn(old(View()), world)
    {
      o := world.fates(at).outcome;
      at := at + 1;
    }

    method Rename(from: Path, to: Path) returns (o: Outcome)
      requires from != to
      modifies this`files, this`at
      ensures Step(View(), o) == RenameOn(old(View()), world, from, to)
    {
      var fate := world.fates(at);
      at := at + 1;
      o := fate.outcome;
      if from !in files {
        return if o.Done? then Failed else o;
      }
      if o.Failed? && world.renames && from.root == to.root {
        o := Done;
      }
      if o.Done? || (o.Crashed? && fate.acts) {
        files := Renamed(files, from, to);
      }
    }

    method RemoveAll(path: Path) returns (o: Outcome)
      modifies this`files, this`at
      ensures Step(View(), o) == RemoveOn(old(View()), world, path)
    {
      var fate := world.fates(at);
      at := at + 1;
      o := fate.outcome;
      if path in files {
        if o.Done? || fate.acts {
          files := files - {path};
        } else if !fate.whole {
          files := files[path := Cut];
        }
      }
    }

    method CopyTree(from: Path, to: Path) returns (o: Outcome)
      requires from != to
      modifies this`files, this`at
      ensures Step(View(), o) == CopyOn(old(View()), world, from, to)
    {
      var fate := world.fates(at);
      at := at + 1;
      o := fate.outcome;
      if from !in files {
        return if o.Done? then Failed else o;
      }
      if to in files {
        files := files[to := Cut];
      } else if o.Done? || (fate.acts && fate.whole) {
        files := files[to := files[from]];
      } else if fate.acts {
        files := files[to := Cut];
      }
    }

    method WriteJournal(next: Journal) returns (o: Outcome)
      modifies this`journal, this`at
      ensures Step(View(), o) == WriteJournalOn(old(View()), world, next)
    {
      var fate := world.fates(at);
      at := at + 1;
      o := fate.outcome;
      if o.Done? || (o.Crashed? && fate.acts) {
        journal := Written(next);
      }
    }

    method RemoveJournal() returns (o: Outcome)
      modifies this`journal, this`at
      ensures Step(View(), o) == RemoveJournalOn(old(View()), world)
    {
      var fate := world.fates(at);
      at := at + 1;
      o := fate.outcome;
      if o.Done? || (o.Crashed? && fate.acts) {
        journal := NoJournal;
      }
    }

    // ---- One move ----

    /** Renames, or copies and removes where a rename does not work. */
    method MoveAside(from: Path, to: Path) returns (o: Outcome)
      requires from != to
      modifies this`files, this`at
      ensures Step(View(), o) == MoveAsideOn(old(View()), world, from, to)
      ensures SameExcept(old(files), files, {from, to})
      ensures to !in old(files) && o.Done? ==> from in old(files) && files == Renamed(old(files), from, to)
      ensures to !in old(files) && !o.Done? ==> Halfway(old(files), files, from, to)
      ensures to !in old(files) && from in old(files) && world.renames && from.root == to.root ==>
                files == old(files) || files == Renamed(old(files), from, to)
      ensures to !in old(files) && !o.Crashed? && Get(old(files), from) != Some(Cut) ==>
                (Get(files, to) == Some(Cut) <==> Leaves(old(View()), world, from, to))
    {
      MoveAsideDoes(View(), world, from, to);
      hide Leaves, RenameOn, CopyOn, RemoveOn;
      o := MakeParent(to);
      if !o.Done? { return; }
      o := Rename(from, to);
      if !o.Failed? { return; }
      o := CopyTree(from, to);
      if o.Crashed? { return; }
      if o.Failed? {
        o := RemoveAll(to);
        if o.Done? { o := Failed; }
        return;
      }
      o := RemoveAll(from);
    }

    method ApplyMove(move: Move) returns (o: Outcome)
      requires Apart(move)
      modifies this`files, this`at
      ensures Step(View(), o) == ApplyMoveOn(old(View()), world, move)
      ensures SameExcept(old(files), files, Touched(move))
      ensures Startable(old(files), move) && o.Done? ==> Applied(old(files), files, move)
      ensures Startable(old(files), move) && !o.Done? ==> HalfApplied(old(files), files, move)
      ensures Startable(old(files), move) && world.renames && move.live.root == move.previous.root ==> Get(files, move.previous) != Some(Cut)
      ensures Startable(old(files), move) && !o.Crashed? ==>
                (Get(files, move.previous) == Some(Cut) <==> move.existed && Leaves(old(View()), world, move.live, move.previous))
    {
      ApplyMoveDoes(View(), world, move);
      hide Leaves, MoveAsideOn, Startable, Applied, HalfApplied;
      o := Done;
      if move.existed {
        o := MoveAside(move.live, move.previous);
        if !o.Done? { return; }
      }
      if move.staged.Some? && move.staged.value in files {
        o := MoveAside(move.staged.value, move.live);
      }
    }

    /** Undoes one move, from whatever point it reached. */
    method PutBack(move: Move) returns (o: Outcome)
      requires move.live != move.previous
      modifies this`files, this`at
      ensures Step(View(), o) == PutBackOn(old(View()), world, move)
      ensures SameExcept(old(files), files, {move.live, move.previous})
      ensures o.Done? ==> Get(files, move.live) == Restores(old(files), move) && (move.existed ==> Get(files, move.previous) == None)
      ensures KeepsOne(old(files), files, move)
      ensures world.renames && move.live.root == move.previous.root && Get(old(files), move.previous) != Some(Cut) ==>
                Get(files, move.previous) != Some(Cut)
    {
      PutBackDoes(View(), world, move);
      hide MoveAsideOn, RemoveOn, KeepsOne, Restores;
      if move.existed {
        if move.previous !in files {
          return Done;
        }
        o := RemoveAll(move.live);
        if !o.Done? { return; }
        o := MoveAside(move.previous, move.live);
      } else {
        o := RemoveAll(move.live);
      }
    }

    // ---- The whole swap ----

    /** Puts the previous profile back from whatever point the swap reached, then forgets the journal. */
    method RollbackRestore(moves: seq<Move>) returns (o: Outcome)
      requires Separate(moves)
      modifies this
      ensures Step(View(), o) == RollbackOn(old(View()), world, moves)
      ensures o.Done? ==> journal == NoJournal && RolledBack(old(files), files, moves)
      ensures o.Failed? ==> journal == old(journal)
      ensures o.Crashed? ==> journal == old(journal) || (journal == NoJournal && RolledBack(old(files), files, moves))
      ensures Keeps(old(files), files, moves)
      ensures world.renames && NoCutAside(old(files), moves) ==> NoCutAside(files, moves)
    {
      ghost var before := View();
      RollbackDoes(before, world, moves);
      hide PutBackOn, ForgetOn, RolledBack, Keeps, NoCutAside;
      var i := |moves|;
      while i > 0
        invariant 0 <= i <= |moves|
        invariant PutBackAllOn(before, world, moves, |moves|) == PutBackAllOn(View(), world, moves, i)
      {
        i := i - 1;
        o := PutBack(moves[i]);
        if !o.Done? { return; }
      }
      o := ForgetAsideFolders(moves);
      if !o.Done? { return; }
      o := RemoveJournal();
    }

    /** What cannot be removed is left; only a crash stops this. */
    method ForgetAsideFolders(moves: seq<Move>) returns (o: Outcome)
      modifies this`files, this`at
      ensures Step(View(), o) == ForgetOn(old(View()), world, moves, 0)
      ensures !o.Failed?
      ensures OnlyAside(old(files), files, moves)
      ensures forall path | Get(old(files), path) == None :: Get(files, path) == None
    {
      ghost var before := View();
      ForgetDoes(before, world, moves, 0);
      hide RemoveOn, OnlyAside;
      for i := 0 to |moves|
        invariant journal == before.journal
        invariant ForgetOn(before, world, moves, 0) == ForgetOn(View(), world, moves, i)
      {
        o := RemoveAll(moves[i].previous);
        if o.Crashed? { return; }
      }
      o := Done;
    }

    /** Swaps the ready profile in. `atRollback` is what a failed swap left for the rollback, or what a crash left. */
    method ActivateRestore(stamp: string) returns (r: Activation, ghost atRollback: Files)
      modifies this
      ensures Ended(View(), r) == ActivateOn(old(View()), world, stamp)
      ensures r.Refused? ==> files == old(files) && journal == old(journal)
      ensures old(journal) != NoJournal ==> r.Refused?
      ensures Plannable(old(files), stamp) ==> Ends(old(files), Ended(View(), r), atRollback, world, stamp)
      ensures Plannable(old(files), stamp) && r.WentBack? ==>
                (LiveIs(files, old(files), Plan(old(files), stamp)) <==> !LeavesCopy(old(View()), world, stamp))
      ensures Plannable(old(files), stamp) && r.SwappedIn? ==> HoldsReady(old(files), files) && HoldsOld(old(files), files, stamp)
    {
      ghost var before := View();
      atRollback := ActivateDoes(before, world, stamp);
      ActivateKeepsItsWord(before, world, stamp);
      hide HoldsReady, HoldsOld, Ends, LeavesCopy, LiveIs, Plannable, ApplyMoveOn, RollbackOn, Plan, WriteJournalOn, RemoveReadyOn, Separate, Apart, SwapOn;
      if journal != NoJournal {
        return Refused, atRollback;
      }
      if Path(Config, READY + ["READY.json"]) !in files || Path(Config, READY + ["meron.db"]) !in files {
        return Refused, atRollback;
      }
      var moves := Plan(files, stamp);
      PlanIsSeparate(files, stamp);
      var o := WriteJournal(Journal(Swapping, stamp, moves));
      if o.Failed? {
        return Refused, atRollback;
      }
      if o.Crashed? {
        return Stopped, atRollback;
      }
      ghost var begun := View();
      var i := 0;
      while i < |moves|
        invariant 0 <= i <= |moves|
        invariant SwapOn(begun, world, moves, 0) == SwapOn(View(), world, moves, i)
      {
        SeparateOne(moves, i);
        SwapNext(View(), world, moves, i);
        o := ApplyMove(moves[i]);
        if o.Crashed? {
          return Stopped, atRollback;
        }
        if o.Failed? {
          o := RollbackRestore(moves);
          return if o.Done? then WentBack else Stopped, atRollback;
        }
        i := i + 1;
      }
      SwapEnd(View(), world, moves);
      var made := Journal(State.Activated, stamp, moves);
      o := WriteJournal(made);
      if o.Crashed? {
        return Stopped, atRollback;
      }
      if o.Failed? {
        o := RollbackRestore(moves);
        return if o.Done? then WentBack else Stopped, atRollback;
      }
      o := RemoveReady();
      if o.Crashed? {
        return Stopped, atRollback;
      }
      return SwappedIn(made), atRollback;
    }

    method RemoveReady() returns (o: Outcome)
      modifies this`files, this`at
      ensures Step(View(), o) == RemoveReadyOn(old(View()), world)
    {
      var fate := world.fates(at);
      at := at + 1;
      if fate.outcome.Done? {
        files := files - set path | path in files && path.root == Config && READY <= path.names;
      }
      o := if fate.outcome.Crashed? then Crashed else Done;
    }

    /** The person keeps the restored profile: the previous one is deleted. */
    method KeepRestore() returns (o: Option<Outcome>)
      modifies this
      ensures o == None <==> !(old(journal).Written? && old(journal).journal.state == State.Activated)
      ensures o == None ==> files == old(files) && journal == old(journal)
      ensures o.Some? ==>
                var moves := old(journal).journal.moves;
                && OnlyAside(old(files), files, moves)
                && (Separate(moves) ==> LiveIs(files, old(files), moves))
                && (journal == old(journal) || journal == NoJournal)
                && (o == Some(Done) ==> journal == NoJournal)
    {
      if !journal.Written? || journal.journal.state != State.Activated {
        return None;
      }
      var moves := journal.journal.moves;
      var forgot := ForgetAsideFolders(moves);
      if forgot.Crashed? {
        return Some(Crashed);
      }
      var removed := RemoveJournal();
      return Some(removed);
    }

    /** Before the core starts: a swap cut short is rolled back. */
    method RecoverInterruptedRestore() returns (o: Option<Outcome>)
      requires journal.Written? ==> Separate(journal.journal.moves)
      modifies this
      ensures o.Some? <==> old(journal).Written? && old(journal).journal.state == Swapping
      ensures o == None ==> files == old(files) && journal == old(journal)
      ensures o.Some? ==>
                var moves := old(journal).journal.moves;
                && Keeps(old(files), files, moves)
                && (world.renames && NoCutAside(old(files), moves) ==> NoCutAside(files, moves))
                && (o == Some(Done) ==> journal == NoJournal)
                && (journal == old(journal) || (journal == NoJournal && RolledBack(old(files), files, moves)))
    {
      if !journal.Written? || journal.journal.state != Swapping {
        return None;
      }
      var rolled := RollbackRestore(journal.journal.moves);
      return Some(rolled);
    }

    /** Any number of starts, each of which may crash or fail part-way in the recovery itself: a journal that
        is gone was removed by a recovery that completed, and then what was live before the swap is live. */
    method StartAgain(starts: nat, ghost original: Files, ghost moves: seq<Move>)
      requires Separate(moves) && WholeLive(original, moves)
      requires journal.Written? && journal.journal.state == Swapping && journal.journal.moves == moves
      requires world.renames && Tracks(files, original, moves) && NoCutAside(files, moves)
      modifies this
      ensures journal == NoJournal || journal == old(journal)
      ensures journal == NoJournal ==> LiveIs(files, original, moves)
      ensures journal != NoJournal ==> Tracks(files, original, moves) && NoCutAside(files, moves)
    {
      RestoresAllIff(files, original, moves);
      for start := 0 to starts
        invariant journal == NoJournal || journal == old(journal)
        invariant journal == NoJournal ==> LiveIs(files, original, moves)
        invariant journal != NoJournal ==> RestoresAll(files, original, moves) && Tracks(files, original, moves) && NoCutAside(files, moves)
      {
        if journal != NoJournal {
          label start:
          var o := RecoverInterruptedRestore();
          KeepsTracks(old@start(files), files, original, moves);
          RestoresAllIff(files, original, moves);
        }
      }
    }

    /** The whole of it: an activation that may crash anywhere, then any number of starts that may crash
        too. Unless the restored profile was swapped in, a disk without a journal holds the previous profile,
        and one with a journal still leads back to it. */
    method ActivateThenStart(stamp: string, starts: nat) returns (r: Activation)
      requires world.renames && journal == NoJournal && Plannable(files, stamp)
      modifies this
      ensures var moves := Plan(old(files), stamp);
              && (journal == NoJournal ==> LiveIs(files, old(files), moves))
              && (r.SwappedIn? ==> Swapped(old(files), files, moves))
              && (journal != NoJournal ==> RestoresAll(files, old(files), moves) && journal.Written? && journal.journal.moves == moves)
    {
      ghost var original := files;
      ghost var moves := Plan(files, stamp);
      PlanIsSeparate(files, stamp);
      assert WholeLive(files, moves) by {
        forall i | 0 <= i < |moves| ensures Get(files, moves[i].live) != Some(Cut) { assert Startable(files, moves[i]); }
      }
      ghost var atRollback;
      r, atRollback := ActivateRestore(stamp);
      if r.WentBack? || r.Stopped? {
        if Tracks(atRollback, original, moves) { RestoresAllIff(atRollback, original, moves); }
        if r.Stopped? && journal != NoJournal {
          KeepsTracks(atRollback, files, original, moves);
          RestoresAllIff(files, original, moves);
          if journal.journal.state == Swapping {
            StartAgain(starts, original, moves);
            if journal != NoJournal { RestoresAllIff(files, original, moves); }
          }
        }
      } else if r.SwappedIn? {
        SwappedGoesBack(original, files, moves);
      }
    }
  }

  ghost predicate KeepsOne(before: Files, now: Files, move: Move) {
    Restores(now, move) == Restores(before, move) || (move.existed && Get(now, move.previous) == Some(Cut))
  }

  /** A rollback that has come down to move `i`. */
  ghost predicate HasPutBack(before: Files, now: Files, moves: seq<Move>, i: nat) {
    && (forall j | 0 <= j < |moves| && j < i ::
          Get(now, moves[j].live) == Get(before, moves[j].live) && Get(now, moves[j].previous) == Get(before, moves[j].previous))
    && (forall j | i <= j < |moves| ::
          Get(now, moves[j].live) == Restores(before, moves[j]) && (moves[j].existed ==> Get(now, moves[j].previous) == None))
  }

  lemma NotCutNow(before: Files, f: Files, moves: seq<Move>, i: nat, renames: bool)
    requires i < |moves| && (renames && NoCutAside(before, moves) ==> NoCutAside(f, moves))
    ensures renames && NoCutAside(before, moves) && moves[i].existed ==> Get(f, moves[i].previous) != Some(Cut)
  {}

  lemma PutBackStep(before: Files, f: Files, g: Files, moves: seq<Move>, i: nat, renames: bool)
    requires i < |moves| && Separate(moves)
    requires HasPutBack(before, f, moves, i + 1)
    requires SameExcept(f, g, {moves[i].live, moves[i].previous})
    requires KeepsOne(f, g, moves[i])
    requires renames && Get(f, moves[i].previous) != Some(Cut) ==> Get(g, moves[i].previous) != Some(Cut)
    ensures Keeps(before, g, moves)
    ensures renames && NoCutAside(before, moves) ==> NoCutAside(g, moves)
    ensures Get(g, moves[i].live) == Restores(f, moves[i]) && (moves[i].existed ==> Get(g, moves[i].previous) == None) ==>
              HasPutBack(before, g, moves, i)
  {
    forall j | 0 <= j < |moves| && j != i
      ensures Get(g, moves[j].live) == Get(f, moves[j].live) && Get(g, moves[j].previous) == Get(f, moves[j].previous)
    {
      assert moves[j].live !in {moves[i].live, moves[i].previous};
      assert moves[j].previous !in {moves[i].live, moves[i].previous};
    }
  }

  lemma ForgettingKeeps(before: Files, f: Files, g: Files, moves: seq<Move>)
    requires Separate(moves) && HasPutBack(before, f, moves, 0)
    requires forall path | (forall i | 0 <= i < |moves| :: path != moves[i].previous) :: Get(g, path) == Get(f, path)
    requires forall path | Get(f, path) == None :: Get(g, path) == None
    ensures RolledBack(before, g, moves) && Keeps(before, g, moves) && NoCutAside(g, moves)
  {}

  /** How an activation ends: refused with nothing touched, swapped in, failed and put back, or stopped by a
      crash or by a rollback that failed in its turn. */
  datatype Activation = Refused | SwappedIn(journal: Journal) | WentBack | Stopped

  /** A stamp not used before, and a whole profile to move aside. */
  ghost predicate Plannable(files: Files, stamp: string) {
    forall i | 0 <= i < |Plan(files, stamp)| :: Startable(files, Plan(files, stamp)[i])
  }

  ghost predicate Swapped(f: Files, g: Files, moves: seq<Move>) {
    forall i | 0 <= i < |moves| :: Applied(f, g, moves[i])
  }

  /** Going back from an activated restore gives exactly the previous profile. */
  lemma SwappedGoesBack(original: Files, files: Files, moves: seq<Move>)
    requires forall i | 0 <= i < |moves| :: Startable(original, moves[i])
    requires Swapped(original, files, moves)
    ensures RestoresAll(files, original, moves)
  {
    forall i | 0 <= i < |moves| ensures Restores(files, moves[i]) == Get(original, moves[i].live) {
      assert Startable(original, moves[i]) && Applied(original, files, moves[i]);
    }
  }

  /** A swap that has made the first `i` moves. */
  ghost predicate HasSwapped(f: Files, g: Files, moves: seq<Move>, i: nat) {
    && (forall j | 0 <= j < |moves| && j < i :: Applied(f, g, moves[j]))
    && (forall j | i <= j < |moves| ::
          && Get(g, moves[j].live) == Get(f, moves[j].live) && Get(g, moves[j].previous) == Get(f, moves[j].previous)
          && (moves[j].staged.Some? ==> Get(g, moves[j].staged.value) == Get(f, moves[j].staged.value)))
    && Tracks(g, f, moves)
  }

  /** The ready copy holds no planned live or aside path. */
  lemma ReadyIsApart(planned: Files, f: Files, g: Files, stamp: string)
    requires forall path: Path | !(path.root == Config && READY <= path.names) :: Get(g, path) == Get(f, path)
    ensures var moves := Plan(planned, stamp);
            forall i | 0 <= i < |moves| ::
              Get(g, moves[i].live) == Get(f, moves[i].live) && Get(g, moves[i].previous) == Get(f, moves[i].previous)
  {
    var moves := Plan(planned, stamp);
    forall i | 0 <= i < |moves|
      ensures Get(g, moves[i].live) == Get(f, moves[i].live) && Get(g, moves[i].previous) == Get(f, moves[i].previous)
    {
      assert |moves[i].live.names| == 1;
      assert moves[i].previous.root == Config ==> moves[i].previous.names[0][0] == 'b';
      assert READY[0][0] == 'r';
    }
  }

  lemma ApplyStep(before: Files, f: Files, g: Files, moves: seq<Move>, i: nat, renames: bool, o: Outcome)
    requires i < |moves| && Separate(moves)
    requires forall j | 0 <= j < |moves| :: Startable(before, moves[j])
    requires HasSwapped(before, f, moves, i)
    requires SameExcept(f, g, Touched(moves[i]))
    requires Startable(f, moves[i]) ==> if o.Done? then Applied(f, g, moves[i]) else HalfApplied(f, g, moves[i])
    requires renames && Startable(f, moves[i]) ==> Get(g, moves[i].previous) != Some(Cut)
    ensures o.Done? ==> HasSwapped(before, g, moves, i + 1)
    ensures Tracks(g, before, moves)
    ensures renames && NoCutAside(f, moves) ==> NoCutAside(g, moves)
  {
    assert Startable(before, moves[i]);
    assert Startable(f, moves[i]);
    forall j | 0 <= j < |moves| && j != i
      ensures Get(g, moves[j].live) == Get(f, moves[j].live) && Get(g, moves[j].previous) == Get(f, moves[j].previous)
      ensures j > i && moves[j].staged.Some? ==> Get(g, moves[j].staged.value) == Get(f, moves[j].staged.value)
    {
      assert moves[j].live !in Touched(moves[i]);
      assert moves[j].previous !in Touched(moves[i]);
      if j > i && moves[j].staged.Some? { assert moves[j].staged.value !in Touched(moves[i]); }
    }
  }

  ghost function Touched(move: Move): set<Path> {
    {move.live, move.previous} + (if move.staged.Some? then {move.staged.value} else {})
  }

  /** A move as planned: nothing aside yet, and what is live is whole. */
  predicate Startable(f: Files, move: Move) {
    && Get(f, move.previous) == None
    && (move.existed <==> move.live in f)
    && Get(f, move.live) != Some(Cut)
  }

  /** The staged tree, if any, is live and what was live is aside. */
  predicate Applied(f: Files, g: Files, move: Move) {
    && Get(g, move.live) == (if move.staged.Some? then Get(f, move.staged.value) else None)
    && Get(g, move.previous) == Get(f, move.live)
  }

  /** Rolled back from here, the move gives what was live, or the aside copy is cut. */
  predicate HalfApplied(f: Files, g: Files, move: Move) {
    if move.existed then Restores(g, move) == Get(f, move.live) || Get(g, move.previous) == Some(Cut)
    else Get(g, move.previous) == None
  }

  ghost predicate RolledBack(f: Files, g: Files, moves: seq<Move>) {
    forall i | 0 <= i < |moves| :: Get(g, moves[i].live) == Restores(f, moves[i]) && (moves[i].existed ==> Get(g, moves[i].previous) == None)
  }

  lemma SameMaps(f: Files, g: Files)
    requires forall path :: Get(f, path) == Get(g, path)
    ensures f == g
  {
    forall path ensures path in f <==> path in g {
      assert Get(f, path) == Get(g, path);
    }
    forall path | path in f ensures f[path] == g[path] {
      assert Get(f, path) == Get(g, path);
    }
  }

  /** A move stopped on its way: the source is still whole, or the target is and the source is going. */
  predicate Halfway(f: Files, g: Files, from: Path, to: Path) {
    || (Get(g, from) == Get(f, from) && Remnant(Get(g, to), Get(f, from)))
    || (from in f && Get(g, to) == Get(f, from) && Remnant(Get(g, from), Get(f, from)))
  }
}
