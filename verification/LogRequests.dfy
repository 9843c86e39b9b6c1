/** The flag shared by the log sensor and its button (cmha/src/container_device.rs). */
module LogRequests {
  import opened Wrappers

  datatype Error = FetchFailed

  class LogRequest {
    var shouldGetLogs: bool

    constructor ()
      ensures !shouldGetLogs
    {
      shouldGetLogs := false;
    }

    /** `GetLogsButton::do_handle_command`. */
    method Press()
      modifies this
      ensures shouldGetLogs
    {
      shouldGetLogs := true;
    }

    /** `LogText::get_entity_data`, with no other read of the device under way. The request is taken before the fetch,
        and is gone even when the fetch fails. `None`: no fetch, no reading. */
    method GetEntityData(fetch: Result<string, Error>) returns (r: Result<Option<string>, Error>, ghost fetched: bool)
      modifies this
      ensures fetched == old(shouldGetLogs) && !shouldGetLogs
      ensures !fetched ==> r == Ok(None)
      ensures fetched ==> r == match fetch case Ok(logs) => Ok(Some(logs)) case Err(e) => Err(e)
    {
      fetched := shouldGetLogs;
      if !shouldGetLogs {
        return Ok(None), fetched;
      }
      shouldGetLogs := false;
      match fetch {
        case Ok(logs) => r := Ok(Some(logs));
        case Err(e) => r := Err(e);
      }
    }
  }

  /** A press holds the device's write lock, so it never falls within a read. */
  datatype Operation = Press | Read

  /** The flag after these operations, as `Press` and `GetEntityData` leave it. */
  predicate Requested(ops: seq<Operation>) {
    ops != [] &&
    match ops[|ops| - 1]
    case Press => true
    case Read => false
  }

  /** How many reads fetched. */
  function Fetches(ops: seq<Operation>): nat {
    if ops == [] then 0
    else
      var n := |ops| - 1;
      Fetches(ops[..n]) + if ops[n].Read? && Requested(ops[..n]) then 1 else 0
  }

  function Presses(ops: seq<Operation>): nat {
    if ops == [] then 0 else Presses(ops[..|ops| - 1]) + if ops[|ops| - 1].Press? then 1 else 0
  }

  /** How many presses came first, or right after a read. */
  function PressGroups(ops: seq<Operation>): nat {
    if ops == [] then 0
    else
      var n := |ops| - 1;
      PressGroups(ops[..n]) + if ops[n].Press? && (n == 0 || ops[n - 1].Read?) then 1 else 0
  }

  /** A read fetches exactly when a press came after the read before it. */
  lemma FetchesWhenPressedSince(ops: seq<Operation>, i: nat)
    requires i <= |ops|
    ensures Requested(ops[..i]) <==>
            exists j :: 0 <= j < i && ops[j].Press? && forall k :: j < k < i ==> !ops[k].Read?
  {
    if Requested(ops[..i]) {
      var j := i - 1;
      assert ops[j].Press?;
    }
    if j :| 0 <= j < i && ops[j].Press? && forall k :: j < k < i ==> !ops[k].Read? {
      assert j == i - 1 || !ops[i - 1].Read?;
    }
  }

  /** In every run each group of presses gives exactly one fetch, at the next read, so fetches never exceed presses. */
  lemma {:induction false} OneFetchPerGroup(ops: seq<Operation>)
    ensures Fetches(ops) + (if Requested(ops) then 1 else 0) == PressGroups(ops)
    ensures Fetches(ops) <= PressGroups(ops) <= Presses(ops)
  {
    if ops == [] {
    } else {
      OneFetchPerGroup(ops[..|ops| - 1]);
    }
  }

  type Logs = Result<Option<string>, Error>

  /** What the reads of a run answer, when a fetch at place `i` would bring `outcomes[i]`. */
  function Answers(ops: seq<Operation>, outcomes: seq<Result<string, Error>>): seq<Logs>
    requires |outcomes| == |ops|
  {
    if ops == [] then []
    else
      var n := |ops| - 1;
      Answers(ops[..n], outcomes[..n]) +
      match ops[n]
      case Press => []
      case Read => [if Requested(ops[..n]) then Fetched(outcomes[n]) else Ok(None)]
  }

  function Fetched(outcome: Result<string, Error>): Logs {
    match outcome
    case Ok(logs) => Ok(Some(logs))
    case Err(e) => Err(e)
  }

  /** The object over a whole run, whatever its fetches bring. */
  method Follow(ops: seq<Operation>, outcomes: seq<Result<string, Error>>)
    returns (answers: seq<Logs>, fetches: nat, pending: bool)
    requires |outcomes| == |ops|
    ensures answers == Answers(ops, outcomes) && fetches == Fetches(ops) && pending == Requested(ops)
  {
    var request := new LogRequest();
    answers, fetches := [], 0;
    for i := 0 to |ops|
      invariant fresh(request)
      invariant fetches == Fetches(ops[..i]) && request.shouldGetLogs == Requested(ops[..i])
      invariant answers == Answers(ops[..i], outcomes[..i])
    {
      assert ops[..i + 1][..i] == ops[..i] && outcomes[..i + 1][..i] == outcomes[..i];
      match ops[i] {
        case Press => request.Press();
        case Read =>
          if request.shouldGetLogs {
            fetches := fetches + 1;
          }
          var r, fetched := request.GetEntityData(outcomes[i]);
          answers := answers + [r];
      }
    }
    assert ops[..|ops|] == ops && outcomes[..|ops|] == outcomes;
    pending := request.shouldGetLogs;
  }

  /** The answers of a run, one per read: what its fetch brings when a press came since the read before, else
      nothing. */
  lemma {:induction false} AnswersAre(ops: seq<Operation>, outcomes: seq<Result<string, Error>>)
    requires |outcomes| == |ops| && ops != [] && ops[|ops| - 1].Read?
    ensures var n, answers := |ops| - 1, Answers(ops, outcomes);
            && answers != []
            && answers[|answers| - 1] == (if n == 0 || ops[n - 1].Read? then Ok(None)
                                          else match outcomes[n] case Ok(logs) => Ok(Some(logs)) case Err(e) => Err(e))
  {
    var n := |ops| - 1;
    assert n > 0 ==> ops[..n][|ops[..n]| - 1] == ops[n - 1];
  }
}
