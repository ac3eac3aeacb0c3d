/** The anti-rollback state file a client keeps beside the directory it loads. */
module DirectoryStore {
  import opened Wrappers
  import opened Directory

  datatype StateFile = StateFile(epoch: int, directory: Digest<Snapshot>, roots: Digest<Roots>)

  datatype Failure =
    | InvalidRoots
    | InvalidDirectory
    | CorruptState
    | RootsChanged
    | Rollback
    | SplitView
    | Discontinuity
    | NotInitial

  function StateOf(s: Snapshot, roots: Roots): StateFile {
    StateFile(s.epoch, Sha256(s), Sha256(roots))
  }

  /** What one load decides about the files it finds: the state to keep, or why it stops. */
  ghost function LoadOutcome(state: Option<StateFile>, s: Snapshot, roots: Roots, now: int): Result<StateFile, Failure> {
    if !RootsOk(roots) then Err(InvalidRoots)
    else if !ValidDirectory(s, roots, now) then Err(InvalidDirectory)
    else if state.None? then
      if s.previous.Some? then Err(NotInitial) else Ok(StateOf(s, roots))
    else
      var held := state.value;
      if !IsInteger(held.epoch, 1) then Err(CorruptState)
      else if held.roots != Sha256(roots) then Err(RootsChanged)
      else if !IsDigest(held.directory) then Err(CorruptState)
      else if s.epoch < held.epoch then Err(Rollback)
      else if s.epoch == held.epoch then
        if Sha256(s) != held.directory then Err(SplitView) else Ok(held)
      else if s.epoch != held.epoch + 1 || s.previous != Some(held.directory) then Err(Discontinuity)
      else Ok(StateOf(s, roots))
  }

  class Store {
    var state: Option<StateFile>

    constructor ()
      ensures state == None
    {
      state := None;
    }

    /** Checks the files against the state under the lock, then replaces the state in one step. */
    method Load(s: Snapshot, roots: Roots, now: int) returns (r: Result<Snapshot, Failure>)
      modifies this
      ensures r.Ok? <==> LoadOutcome(old(state), s, roots, now).Ok?
      ensures r.Ok? ==> r.value == s && state == Some(LoadOutcome(old(state), s, roots, now).value)
      ensures r.Err? ==> r.error == LoadOutcome(old(state), s, roots, now).error && state == old(state)
    {
      if !RootsOk(roots) {
        return Err(InvalidRoots);
      }
      var valid := Validate(s, roots, now, true);
      if !valid {
        return Err(InvalidDirectory);
      }
      if state.Some? {
        var held := state.value;
        if !IsInteger(held.epoch, 1) {
          return Err(CorruptState);
        }
        if held.roots != Sha256(roots) {
          return Err(RootsChanged);
        }
        if !IsDigest(held.directory) {
          return Err(CorruptState);
        }
        if s.epoch < held.epoch {
          return Err(Rollback);
        }
        if s.epoch == held.epoch {
          if Sha256(s) != held.directory {
            return Err(SplitView);
          }
          return Ok(s);
        }
        if s.epoch != held.epoch + 1 || s.previous != Some(held.directory) {
          return Err(Discontinuity);
        }
      } else if s.previous.Some? {
        return Err(NotInitial);
      }
      state := Some(StateOf(s, roots));
      r := Ok(s);
    }
  }

  // ---- runs: any sequence of loads of any files at any times ----

  datatype Attempt = Attempt(s: Snapshot, roots: Roots, now: int)

  ghost function After(state: Option<StateFile>, attempt: Attempt): Option<StateFile> {
    var r := LoadOutcome(state, attempt.s, attempt.roots, attempt.now);
    if r.Ok? then Some(r.value) else state
  }

  ghost function Run(state: Option<StateFile>, attempts: seq<Attempt>): Option<StateFile> {
    if attempts == [] then state
    else After(Run(state, attempts[..|attempts| - 1]), attempts[|attempts| - 1])
  }

  /** The states the client ever committed to, oldest first; a load that changes nothing adds nothing. */
  ghost function Heads(state: Option<StateFile>, attempts: seq<Attempt>): seq<StateFile> {
    if attempts == [] then if state.Some? then [state.value] else []
    else
      var front := attempts[..|attempts| - 1];
      var before, after := Run(state, front), Run(state, attempts);
      if after == before || after.None? then Heads(state, front) else Heads(state, front) + [after.value]
  }

  /** The next head names the previous one by hash, one epoch up, under the same roots. */
  ghost predicate Linked(a: StateFile, b: StateFile) {
    && b.directory.Sha256?
    && b.directory.of.previous == Some(a.directory)
    && b.epoch == a.epoch + 1
    && b.roots == a.roots
  }

  ghost predicate Chain(heads: seq<StateFile>) {
    forall i :: 0 <= i < |heads| - 1 ==> Linked(heads[i], heads[i + 1])
  }

  /** Whatever files are offered, the heads form one hash-linked chain ending at the held state. */
  lemma {:induction false} HeadsChain(state: Option<StateFile>, attempts: seq<Attempt>)
    ensures Chain(Heads(state, attempts))
    ensures Run(state, attempts).Some? <==> Heads(state, attempts) != []
    ensures Run(state, attempts).Some? ==> Run(state, attempts).value == Heads(state, attempts)[|Heads(state, attempts)| - 1]
    ensures state.Some? ==> Heads(state, attempts) != [] && Heads(state, attempts)[0] == state.value
    ensures state.None? && Heads(state, attempts) != [] ==>
      Heads(state, attempts)[0].directory.Sha256? && Heads(state, attempts)[0].directory.of.previous == None
  {
    if attempts != [] {
      hide LoadOutcome, Linked;
      var front, last := attempts[..|attempts| - 1], attempts[|attempts| - 1];
      HeadsChain(state, front);
      if After(Run(state, front), last) != Run(state, front) {
        StepLinks(Run(state, front), last);
      }
    }
  }

  /** A load that changes the state links the new head to the held one, or starts the chain. */
  lemma StepLinks(state: Option<StateFile>, attempt: Attempt)
    requires After(state, attempt) != state
    ensures After(state, attempt).Some?
    ensures state.Some? ==> Linked(state.value, After(state, attempt).value)
    ensures state.None? ==> After(state, attempt).value.directory.Sha256? && After(state, attempt).value.directory.of.previous == None
  {
    hide ValidDirectory, RootsOk;
  }

  lemma {:induction false} ChainEpochs(heads: seq<StateFile>, i: nat, j: nat)
    requires Chain(heads) && i <= j < |heads|
    ensures heads[j].epoch == heads[i].epoch + (j - i)
    ensures heads[j].roots == heads[i].roots
  {
    if i < j {
      ChainEpochs(heads, i, j - 1);
      assert Linked(heads[j - 1], heads[j]);
    }
  }

  /** Running more loads only appends heads. */
  lemma {:induction false} HeadsGrow(state: Option<StateFile>, attempts: seq<Attempt>, more: seq<Attempt>)
    ensures Heads(state, attempts) <= Heads(state, attempts + more)
  {
    hide After, Run;
    if more == [] {
      assert attempts + more == attempts;
    } else {
      HeadsGrow(state, attempts, more[..|more| - 1]);
      var all := attempts + more;
      assert all[..|all| - 1] == attempts + more[..|more| - 1];
    }
  }

  /** Along any run accepted epochs never fall, roots never change, and one epoch never shows two directories. */
  lemma NoRollback(state: Option<StateFile>, attempts: seq<Attempt>, more: seq<Attempt>)
    requires Run(state, attempts).Some?
    ensures Run(state, attempts + more).Some?
    ensures
      var early, late := Run(state, attempts).value, Run(state, attempts + more).value;
      && early.epoch <= late.epoch
      && early.roots == late.roots
      && (early.epoch == late.epoch ==> early == late)
  {
    HeadsChain(state, attempts);
    HeadsChain(state, attempts + more);
    HeadsGrow(state, attempts, more);
    var heads := Heads(state, attempts + more);
    ChainEpochs(heads, |Heads(state, attempts)| - 1, |heads| - 1);
  }

  /** Two chains grown from initial directories that share a head share everything below it. */
  lemma {:induction false} SharedHead(a: seq<StateFile>, b: seq<StateFile>, i: nat, j: nat)
    requires Chain(a) && Chain(b) && i < |a| && j < |b|
    requires a[0].directory.Sha256? && a[0].directory.of.previous == None
    requires b[0].directory.Sha256? && b[0].directory.of.previous == None
    requires a[i].directory == b[j].directory
    ensures i == j
    ensures forall k :: 0 <= k <= i ==> a[k].directory == b[k].directory
  {
    if i > 0 {
      assert Linked(a[i - 1], a[i]);
    }
    if j > 0 {
      assert Linked(b[j - 1], b[j]);
    }
    if i > 0 && j > 0 {
      SharedHead(a, b, i - 1, j - 1);
    }
  }

  /** Two clients that start empty and ever hold the same directory have the same accepted history up to it. */
  lemma SameHeadSameHistory(ours: seq<Attempt>, theirs: seq<Attempt>)
    requires Run(None, ours).Some? && Run(None, theirs).Some?
    requires Run(None, ours).value.directory == Run(None, theirs).value.directory
    ensures |Heads(None, ours)| == |Heads(None, theirs)|
    ensures forall k :: 0 <= k < |Heads(None, ours)| ==> Heads(None, ours)[k].directory == Heads(None, theirs)[k].directory
  {
    HeadsChain(None, ours);
    HeadsChain(None, theirs);
    SharedHead(Heads(None, ours), Heads(None, theirs), |Heads(None, ours)| - 1, |Heads(None, theirs)| - 1);
  }

  /** Once two such clients have accepted different directories at one place in history, no later loads reunite them. */
  lemma ForksNeverRejoin(ours: seq<Attempt>, theirs: seq<Attempt>, k: nat, ours': seq<Attempt>, theirs': seq<Attempt>)
    requires k < |Heads(None, ours)| && k < |Heads(None, theirs)|
    requires Heads(None, ours)[k].directory != Heads(None, theirs)[k].directory
    ensures Run(None, ours + ours').Some? && Run(None, theirs + theirs').Some?
    ensures Run(None, ours + ours').value.directory != Run(None, theirs + theirs').value.directory
  {
    HeadsGrow(None, ours, ours');
    HeadsGrow(None, theirs, theirs');
    HeadsChain(None, ours + ours');
    HeadsChain(None, theirs + theirs');
    if Run(None, ours + ours').value.directory == Run(None, theirs + theirs').value.directory {
      SameHeadSameHistory(ours + ours', theirs + theirs');
      assert false;
    }
  }
}
