/** `dialctl`: selecting a dial by UID or by index, and `set`, which sets a
    dial's value and patches its backlight. */
module DialCtl {
  import opened Wrappers
  import opened Text
  import opened Client
  import opened Dial

  /** `DialSelection`: a UID, or an index.  The command line requires exactly
      one of the two. */
  datatype DialSelection = DialSelection(uid: Option<Id>, index: Option<nat>)

  predicate Selects(s: DialSelection) {
    s.uid.Some? || s.index.Some?
  }

  /** `Display for DialSelection`: the UID takes precedence. */
  function FormatSelection(s: DialSelection): (r: string)
    requires Selects(s)
    ensures |r| >= 3 && r[0] in "Ii"
  {
    if s.uid.Some? then "ID " + FormatId(s.uid.value)
    else "index " + Decimal(s.index.value)
  }

  /** Two selections print alike exactly when they name the same UID, or,
      having none, the same index. */
  lemma FormatSelectionInjective(a: DialSelection, b: DialSelection)
    requires Selects(a) && Selects(b)
    ensures FormatSelection(a) == FormatSelection(b) <==>
              a.uid == b.uid && (a.uid.None? ==> a.index == b.index)
  {
    var fa, fb := FormatSelection(a), FormatSelection(b);
    if fa == fb {
      if a.uid.Some? && b.uid.Some? {
        assert FormatId(a.uid.value) == fa[3..] == fb[3..] == FormatId(b.uid.value);
      } else if a.uid.None? && b.uid.None? {
        assert Decimal(a.index.value) == fa[6..] == fb[6..] == Decimal(b.index.value);
        DecimalInjective(a.index.value, b.index.value);
      }
    }
  }

  /** Why no dial was selected. */
  datatype SelectError =
    | DialBuildFailed(error: ApiError)                   // `Client::dial` refused the UID
    | ListDialsFailed(error: ApiError)                   // `list_dials` failed
    | DialStatusFailed(dial: DialHandle, error: ApiError) // "failed to get status for dial {id}"
    | NoDialWithIndex(index: nat)                        // "no dial found with index {index}"

  /** The selected dial, with its status when the search had to fetch it. */
  datatype Selected = Selected(dial: DialHandle, status: Option<Status>)

  /** The search by index, from the first listed dial on. */
  function FindIndex(index: nat, listed: seq<Listed>): Result<Selected, SelectError>
    decreases |listed|
  {
    if listed == [] then Err(NoDialWithIndex(index))
    else match listed[0].status
      case Err(e) => Err(DialStatusFailed(listed[0].dial, e))
      case Ok(status) =>
        if status.index == index then Ok(Selected(listed[0].dial, Some(status)))
        else FindIndex(index, listed[1..])
  }

  /** What `select_dial` returns.  `build` is whether `Client::dial` accepts
      the UID; `listing` is what `list_dials` returns. */
  function Selection(s: DialSelection, build: Outcome<ApiError>,
                     listing: Result<seq<Listed>, ApiError>): Result<Selected, SelectError>
    requires Selects(s)
  {
    if s.uid.Some? then
      match build
      case Fail(e) => Err(DialBuildFailed(e))
      case Pass => Ok(Selected(DialHandle(s.uid.value), None))
    else
      match listing
      case Err(e) => Err(ListDialsFailed(e))
      case Ok(listed) => FindIndex(s.index.value, listed)
  }

  /** `DialSelection::select_dial`. */
  method SelectDial(s: DialSelection, build: Outcome<ApiError>, listing: Result<seq<Listed>, ApiError>)
    returns (r: Result<Selected, SelectError>)
    requires Selects(s)
    ensures r == Selection(s, build, listing)
  {
    if s.uid.Some? {
      if build.Fail? {
        return Err(DialBuildFailed(build.error));
      }
      return Ok(Selected(DialHandle(s.uid.value), None));
    }
    var index := s.index.value;
    if listing.Err? {
      return Err(ListDialsFailed(listing.error));
    }
    var dials := listing.value;
    var found: Option<Selected> := None;
    var i := 0;
    while i < |dials|
      invariant i <= |dials|
      invariant found.None? ==> FindIndex(index, dials[i..]) == FindIndex(index, dials)
    {
      assert dials[i..][0] == dials[i] && dials[i..][1..] == dials[i + 1..];
      var dial := dials[i].dial;
      if dials[i].status.Err? {
        return Err(DialStatusFailed(dial, dials[i].status.error));
      }
      var status := dials[i].status.value;
      if status.index == index {
        found := Some(Selected(dial, Some(status)));
        break;
      }
      i := i + 1;
    }
    if found.None? {
      assert dials[i..] == [];
      return Err(NoDialWithIndex(index));
    }
    return Ok(found.value);
  }

  /** Dial `i` is where the search by index stops: every dial before it
      reported its status and another index. */
  predicate PassedBefore(index: nat, listed: seq<Listed>, i: nat)
    requires i <= |listed|
  {
    forall j :: 0 <= j < i ==> listed[j].status.Ok? && listed[j].status.value.index != index
  }

  /** The search by index returns the first listed dial reporting that
      index, with its status; it fails on the first status that cannot be
      fetched before that; and it finds nothing only when every dial reported
      another index. */
  lemma {:induction false} FindIndexFirstMatch(index: nat, listed: seq<Listed>)
    ensures var r := FindIndex(index, listed);
            r.Ok? ==> exists i :: 0 <= i < |listed| && PassedBefore(index, listed, i)
                                  && listed[i].status.Ok? && listed[i].status.value.index == index
                                  && r.value == Selected(listed[i].dial, Some(listed[i].status.value))
    ensures var r := FindIndex(index, listed);
            r.Err? && r.error.DialStatusFailed? ==>
              exists i :: 0 <= i < |listed| && PassedBefore(index, listed, i) && listed[i].status.Err?
                          && r.error == DialStatusFailed(listed[i].dial, listed[i].status.error)
    ensures FindIndex(index, listed) == Err(NoDialWithIndex(index)) <==> PassedBefore(index, listed, |listed|)
    decreases |listed|
  {
    if listed != [] {
      var tail := listed[1..];
      FindIndexFirstMatch(index, tail);
      var r := FindIndex(index, listed);
      if listed[0].status.Ok? && listed[0].status.value.index != index {
        assert r == FindIndex(index, tail);
        assert forall j :: 0 < j < |listed| ==> listed[j] == tail[j - 1];
        if r.Ok? {
          var i :| 0 <= i < |tail| && PassedBefore(index, tail, i)
                   && tail[i].status.Ok? && tail[i].status.value.index == index
                   && r.value == Selected(tail[i].dial, Some(tail[i].status.value));
          assert PassedBefore(index, listed, i + 1);
        }
        if r.Err? && r.error.DialStatusFailed? {
          var i :| 0 <= i < |tail| && PassedBefore(index, tail, i) && tail[i].status.Err?
                   && r.error == DialStatusFailed(tail[i].dial, tail[i].status.error);
          assert PassedBefore(index, listed, i + 1);
        }
        if PassedBefore(index, listed, |listed|) {
          assert PassedBefore(index, tail, |tail|);
        }
      } else {
        assert !PassedBefore(index, listed, |listed|);
        assert PassedBefore(index, listed, 0);
      }
    }
  }

  /** With a UID, the dial is taken without listing anything and without a
      status. */
  lemma SelectByUid(s: DialSelection, listing1: Result<seq<Listed>, ApiError>,
                    listing2: Result<seq<Listed>, ApiError>)
    requires s.uid.Some?
    ensures Selection(s, Pass, listing1) == Ok(Selected(DialHandle(s.uid.value), None))
    ensures Selection(s, Pass, listing1) == Selection(s, Pass, listing2)
  {
  }

  /** A selection by index always comes with the status the search read. */
  lemma SelectByIndexHasStatus(s: DialSelection, build: Outcome<ApiError>, listed: seq<Listed>)
    requires s.uid.None? && s.index.Some?
    ensures var r := Selection(s, build, Ok(listed));
            r.Ok? ==> r.value.status.Some? && r.value.status.value.index == s.index.value
  {
    FindIndexFirstMatch(s.index.value, listed);
  }

  /** The `set` options.  `image` is a file path. */
  datatype SetValues = SetValues(value: Option<Percent>, image: Option<string>,
                                 red: Option<Percent>, green: Option<Percent>, blue: Option<Percent>)

  predicate AnyChannel(v: SetValues) {
    v.red.Some? || v.green.Some? || v.blue.Some?
  }

  /** The backlight `set` sends: the current one with the given channels
      replaced. */
  function PatchBacklight(current: Backlight, red: Option<Percent>, green: Option<Percent>,
                          blue: Option<Percent>): (b: Backlight)
    ensures b.red == (if red.Some? then red.value else current.red)
    ensures b.green == (if green.Some? then green.value else current.green)
    ensures b.blue == (if blue.Some? then blue.value else current.blue)
  {
    var b := current;
    var b := if red.Some? then b.(red := red.value) else b;
    var b := if green.Some? then b.(green := green.value) else b;
    if blue.Some? then b.(blue := blue.value) else b
  }

  /** Patching with nothing changes nothing; patching twice with the same
      channels is patching once; patching all three forgets the current
      backlight. */
  lemma PatchBacklightLaws(current: Backlight, other: Backlight, red: Option<Percent>,
                           green: Option<Percent>, blue: Option<Percent>)
    ensures PatchBacklight(current, None, None, None) == current
    ensures PatchBacklight(PatchBacklight(current, red, green, blue), red, green, blue)
            == PatchBacklight(current, red, green, blue)
    ensures red.Some? && green.Some? && blue.Some? ==>
              PatchBacklight(current, red, green, blue) == PatchBacklight(other, red, green, blue)
  {
  }

  /** A request `set` makes of the dial. */
  datatype Request = SetRequest(call: DeviceCall) | StatusRequest

  /** The dial's replies to the requests `set` may make, each made at most
      once. */
  datatype Replies = Replies(setValue: Outcome<ApiError>, status: Result<Status, ApiError>,
                             setBacklight: Outcome<ApiError>)

  /** Why `set` failed.  `selection` is the selection as printed. */
  datatype SetError =
    | SelectFailed(cause: SelectError)
    | SetValueFailed(selection: string, value: Percent, error: ApiError)
    | StatusFetchFailed(selection: string, error: ApiError)
    | SetBacklightFailed(selection: string, backlight: Backlight, error: ApiError)

  /** The requests `set` made after the selection, in order, and how it
      ended. The listing and status reads of a selection by index are part
      of `Selection`, not of these requests. */
  datatype SetRun = SetRun(requests: seq<Request>, result: Outcome<SetError>)

  /** `SetValues::run` after the selection: the value first, then, if a
      channel is given, the patched backlight (fetching the status first if
      the selection did not bring one); the image is not set. */
  function SetAfterSelect(display: string, v: SetValues, selected: Result<Selected, SelectError>,
                          replies: Replies): SetRun
  {
    match selected
    case Err(e) => SetRun([], Fail(SelectFailed(e)))
    case Ok(s) =>
      var valueRequests := if v.value.Some? then [SetRequest(SetValue(v.value.value))] else [];
      if v.value.Some? && replies.setValue.Fail? then
        SetRun(valueRequests, Fail(SetValueFailed(display, v.value.value, replies.setValue.error)))
      else if !AnyChannel(v) then SetRun(valueRequests, Pass)
      else
        var fetch := if s.status.None? then [StatusRequest] else [];
        var current := if s.status.Some? then Ok(s.status.value) else replies.status;
        match current
        case Err(e) => SetRun(valueRequests + fetch, Fail(StatusFetchFailed(display, e)))
        case Ok(status) =>
          var b := PatchBacklight(status.backlight, v.red, v.green, v.blue);
          SetRun(valueRequests + fetch + [SetRequest(SetBacklight(b))],
                 if replies.setBacklight.Pass? then Pass
                 else Fail(SetBacklightFailed(display, b, replies.setBacklight.error)))
  }

  /** `SetValues::run`. */
  method SetValuesRun(v: SetValues, s: DialSelection, build: Outcome<ApiError>,
                      listing: Result<seq<Listed>, ApiError>, replies: Replies)
    returns (requests: seq<Request>, result: Outcome<SetError>)
    requires Selects(s)
    ensures SetRun(requests, result)
            == SetAfterSelect(FormatSelection(s), v, Selection(s, build, listing), replies)
  {
    requests := [];
    var selected := SelectDial(s, build, listing);
    if selected.Err? {
      return requests, Fail(SelectFailed(selected.error));
    }
    var status := selected.value.status;

    if v.value.Some? {
      requests := requests + [SetRequest(SetValue(v.value.value))];
      if replies.setValue.Fail? {
        return requests, Fail(SetValueFailed(FormatSelection(s), v.value.value, replies.setValue.error));
      }
    }

    if v.red.Some? || v.green.Some? || v.blue.Some? {
      var current: Status;
      if status.Some? {
        current := status.value;
      } else {
        requests := requests + [StatusRequest];
        if replies.status.Err? {
          return requests, Fail(StatusFetchFailed(FormatSelection(s), replies.status.error));
        }
        current := replies.status.value;
      }
      var backlight := current.backlight;
      if v.red.Some? {
        backlight := backlight.(red := v.red.value);
      }
      if v.green.Some? {
        backlight := backlight.(green := v.green.value);
      }
      if v.blue.Some? {
        backlight := backlight.(blue := v.blue.value);
      }
      requests := requests + [SetRequest(SetBacklight(backlight))];
      if replies.setBacklight.Fail? {
        return requests, Fail(SetBacklightFailed(FormatSelection(s), backlight, replies.setBacklight.error));
      }
    }

    // the image option only logs that setting an image is not implemented
    return requests, Pass;
  }

  predicate SetsBacklight(requests: seq<Request>) {
    exists k :: 0 <= k < |requests| && requests[k].SetRequest? && requests[k].call.SetBacklight?
  }

  /** The order of `set`'s requests: the value, if given, comes first; the
      status is fetched only when a channel is given and the selection
      brought no status; the backlight, set only when a channel is given,
      comes last and is the current one patched with the given channels. */
  lemma SetOrder(display: string, v: SetValues, s: Selected, replies: Replies)
    ensures var run := SetAfterSelect(display, v, Ok(s), replies);
            v.value.Some? ==> |run.requests| > 0 && run.requests[0] == SetRequest(SetValue(v.value.value))
    ensures var run := SetAfterSelect(display, v, Ok(s), replies);
            StatusRequest in run.requests <==>
              AnyChannel(v) && s.status.None? && (v.value.None? || replies.setValue.Pass?)
    ensures var run := SetAfterSelect(display, v, Ok(s), replies);
            SetsBacklight(run.requests) <==>
              AnyChannel(v) && (v.value.None? || replies.setValue.Pass?)
              && (s.status.Some? || replies.status.Ok?)
    ensures var run := SetAfterSelect(display, v, Ok(s), replies);
            SetsBacklight(run.requests) ==>
              var current := if s.status.Some? then s.status.value else replies.status.value;
              run.requests[|run.requests| - 1]
              == SetRequest(SetBacklight(PatchBacklight(current.backlight, v.red, v.green, v.blue)))
  {
    var run := SetAfterSelect(display, v, Ok(s), replies);
    var valueRequests := if v.value.Some? then [SetRequest(SetValue(v.value.value))] else [];
    if v.value.Some? {
      assert run.requests[0] == valueRequests[0];
    }
    if SetsBacklight(run.requests) {
      var k :| 0 <= k < |run.requests| && run.requests[k].SetRequest? && run.requests[k].call.SetBacklight?;
    }
    if AnyChannel(v) && (v.value.None? || replies.setValue.Pass?) && (s.status.Some? || replies.status.Ok?) {
      assert run.requests[|run.requests| - 1].call.SetBacklight?;
    }
  }

  /** `set` succeeds exactly when every request it makes succeeds. */
  lemma SetSucceeds(display: string, v: SetValues, s: Selected, replies: Replies)
    ensures SetAfterSelect(display, v, Ok(s), replies).result.Pass? <==>
              (v.value.Some? ==> replies.setValue.Pass?)
              && (AnyChannel(v) ==> (s.status.Some? || replies.status.Ok?) && replies.setBacklight.Pass?)
  {
  }

  /** The image option makes no request and changes nothing. */
  lemma ImageIgnored(display: string, v: SetValues, image: Option<string>,
                     selected: Result<Selected, SelectError>, replies: Replies)
    ensures SetAfterSelect(display, v.(image := image), selected, replies)
            == SetAfterSelect(display, v, selected, replies)
  {
  }
}
