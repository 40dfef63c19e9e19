/**
 * The reconciler: one pass of the polling loop, which compares the current
 * playback against the last identity it pushed and sets or clears the custom
 * status only when they differ. The loop's two module-level variables become
 * the fields of a class; `Step` and `Run` state one tick and a series of ticks
 * as functions, so that properties across ticks can be proved.
 */
module Reconciler {
  import opened Wrappers
  import opened Playback
  import Session

  /** The last identity and text pushed as a live status; both absent when none is set. */
  datatype State = State(lastUid: Option<string>, lastText: Option<string>)

  /** The status call a tick makes. */
  datatype Action = NoCall | SetCall(text: string, expiresAt: string) | ClearCall

  /** A tick's effect: the state afterwards and the call it made. */
  datatype TickResult = TickResult(next: State, call: Action)

  /** What one tick observed: the poll result, and whether its status write completed. */
  datatype Observation = Observation(poll: Result<Option<Snapshot>, FetchError>, written: bool)

  /** Calls made over a series of ticks, and the state they leave. */
  datatype RunResult = RunResult(final: State, calls: seq<Action>)

  /** The two variables are set together and cleared together. */
  predicate Consistent(s: State) {
    s.lastUid.Some? <==> s.lastText.Some?
  }

  /**
   * The poll of one tick: the access token first, then the playback query,
   * whose `response` is None when the GET itself raised.
   */
  function Poll(tokenOk: bool, response: Option<Response>, nowStartMs: int, nowExpiryMs: int): (r: Result<Option<Snapshot>, FetchError>)
    ensures r == Failure(TokenUnavailable) <==> !tokenOk
    ensures r == Failure(GetRaised) <==> tokenOk && response.None?
    ensures tokenOk && response.Some? ==> r == Current(response.value, nowStartMs, nowExpiryMs)
  {
    if !tokenOk then Failure(TokenUnavailable)
    else if response.None? then Failure(GetRaised)
    else Current(response.value, nowStartMs, nowExpiryMs)
  }

  /** The call for a successful poll: set on a new identity, clear once when playback disappears. */
  function Decide(s: State, current: Option<Snapshot>): (a: Action)
    ensures a.SetCall? <==> current.Some? && s.lastUid != Some(current.value.uid)
    ensures a.SetCall? ==> a.text == current.value.text && a.expiresAt == current.value.expiresAt
    ensures a.ClearCall? <==> current.None? && s.lastUid.Some?
  {
    match current
    case Some(snap) => if s.lastUid != Some(snap.uid) then SetCall(snap.text, snap.expiresAt) else NoCall
    case None => if s.lastUid.Some? then ClearCall else NoCall
  }

  /** The call a tick makes: none when the poll raised. */
  function Decision(s: State, poll: Result<Option<Snapshot>, FetchError>): (a: Action)
    ensures a != NoCall ==> poll.Success?
    ensures a.SetCall? ==> poll.value.Some? && s.lastUid != Some(poll.value.value.uid)
    ensures a.ClearCall? ==> poll.value.None? && s.lastUid.Some?
  {
    if poll.Failure? then NoCall else Decide(s, poll.value)
  }

  /** The body of the PUT for a call. */
  function BodyOf(call: Action): Session.StatusBody
    requires call != NoCall
  {
    match call
    case SetCall(text, expiresAt) => Session.SetBody(text, expiresAt)
    case ClearCall => Session.ClearBody
  }

  /**
   * One tick. The state is written only after the status call returns, so a
   * raised poll or a write that does not complete leaves it as it was.
   */
  function Step(s: State, poll: Result<Option<Snapshot>, FetchError>, written: bool): (r: TickResult)
    ensures r.call == Decision(s, poll)
    ensures r.call == NoCall || !written ==> r.next == s
    ensures r.call.SetCall? && written ==> r.next == State(Some(poll.value.value.uid), Some(poll.value.value.text))
    ensures r.call.ClearCall? && written ==> r.next == State(None, None)
    ensures Consistent(s) ==> Consistent(r.next)
  {
    var call := Decision(s, poll);
    if call == NoCall || !written then TickResult(s, call)
    else if call.SetCall? then TickResult(State(Some(poll.value.value.uid), Some(poll.value.value.text)), call)
    else TickResult(State(None, None), call)
  }

  /** A series of ticks from state `s`: the calls made, in order, and the final state. */
  function Run(s: State, ticks: seq<Observation>): (r: RunResult)
    ensures |r.calls| <= |ticks|
    ensures forall k :: 0 <= k < |r.calls| ==> r.calls[k] != NoCall
    decreases |ticks|
  {
    if ticks == [] then RunResult(s, [])
    else
      var first := Step(s, ticks[0].poll, ticks[0].written);
      var rest := Run(first.next, ticks[1..]);
      RunResult(rest.final, (if first.call == NoCall then [] else [first.call]) + rest.calls)
  }

  /** The poll either raised or saw a playback with identity `uid`. */
  predicate SeesEpisode(poll: Result<Option<Snapshot>, FetchError>, uid: string) {
    poll.Failure? || (poll.value.Some? && poll.value.value.uid == uid)
  }

  /**
   * However many polls observe the same playback episode, the status is
   * written at most once, and not at all when that episode is already pushed.
   */
  lemma {:induction false} SteadyEpisodeWritesOnce(s: State, ticks: seq<Observation>, uid: string)
    requires forall k :: 0 <= k < |ticks| ==> ticks[k].written
    requires forall k :: 0 <= k < |ticks| ==> SeesEpisode(ticks[k].poll, uid)
    ensures |Run(s, ticks).calls| <= 1
    ensures forall k :: 0 <= k < |Run(s, ticks).calls| ==> Run(s, ticks).calls[k].SetCall?
    ensures s.lastUid == Some(uid) ==> Run(s, ticks).calls == []
    decreases |ticks|
  {
    if ticks != [] {
      var first := Step(s, ticks[0].poll, ticks[0].written);
      assert SeesEpisode(ticks[0].poll, uid);
      assert first.call != NoCall ==> first.next.lastUid == Some(uid);
      SteadyEpisodeWritesOnce(first.next, ticks[1..], uid);
    }
  }

  /** Some tick of the series polled without raising. */
  predicate AnyPolled(ticks: seq<Observation>) {
    exists k :: 0 <= k < |ticks| && ticks[k].poll.Success?
  }

  /**
   * When playback has stopped, the status is cleared exactly once if one was
   * pushed and some poll succeeded, and never otherwise.
   */
  lemma {:induction false} StoppedPlaybackClearsOnce(s: State, ticks: seq<Observation>)
    requires forall k :: 0 <= k < |ticks| ==> ticks[k].written
    requires forall k :: 0 <= k < |ticks| ==> ticks[k].poll.Failure? || ticks[k].poll == Success(None)
    ensures Run(s, ticks).calls == if s.lastUid.Some? && AnyPolled(ticks) then [ClearCall] else []
    ensures Run(s, ticks).final == if s.lastUid.Some? && AnyPolled(ticks) then State(None, None) else s
    decreases |ticks|
  {
    if ticks != [] {
      var first := Step(s, ticks[0].poll, ticks[0].written);
      StoppedPlaybackClearsOnce(first.next, ticks[1..]);
      if AnyPolled(ticks[1..]) {
        var k :| 0 <= k < |ticks[1..]| && ticks[1..][k].poll.Success?;
        assert ticks[k + 1].poll.Success?;
      }
      if AnyPolled(ticks) && !ticks[0].poll.Success? {
        var k :| 0 <= k < |ticks| && ticks[k].poll.Success?;
        assert ticks[1..][k - 1].poll.Success?;
      }
      if ticks[0].poll.Success? {
        assert AnyPolled(ticks);
      }
    }
  }

  /** Writes that never complete leave the state as it was, whatever the polls saw. */
  lemma {:induction false} FailedWritesKeepState(s: State, ticks: seq<Observation>)
    requires forall k :: 0 <= k < |ticks| ==> !ticks[k].written
    ensures Run(s, ticks).final == s
    decreases |ticks|
  {
    if ticks != [] {
      FailedWritesKeepState(s, ticks[1..]);
    }
  }

  /** The session for a loop start: the loop logs in first and ends if that raises. */
  method OpenSession(reply: Session.LoginReply) returns (session: Option<Session.Session>)
    ensures session.Some? <==> Session.LoginHeaders(reply).Some?
    ensures session.Some? ==> fresh(session.value) && session.value.headers == Session.LoginHeaders(reply).value
  {
    var headers := Session.Login(reply);
    if headers.None? {
      return None;
    }
    var created := new Session.Session(headers.value);
    session := Some(created);
  }

  /** The loop's memory of what it last pushed; kept across stops and restarts of the loop. */
  class Reconciler {
    var lastUid: Option<string>
    var lastText: Option<string>

    constructor()
      ensures lastUid == None && lastText == None
    {
      lastUid, lastText := None, None;
    }

    function Memory(): State
      reads this
    {
      State(lastUid, lastText)
    }

    /**
     * One pass of the loop body with the given token outcome, playback
     * response (None when the GET raised), clock readings and scripted status-sink replies; returns the
     * PUTs it sent. Any exception ends the pass before the state is written.
     */
    method Tick(session: Session.Session, tokenOk: bool, response: Option<Response>, nowStartMs: int, nowExpiryMs: int,
                replies: seq<Session.PutReply>, logins: seq<Session.LoginReply>)
      returns (sent: seq<Session.Request>)
      modifies this, session
      ensures var call := Decision(old(Memory()), Poll(tokenOk, response, nowStartMs, nowExpiryMs));
        call == NoCall ==> sent == [] && session.headers == old(session.headers) && Memory() == old(Memory())
      ensures var poll := Poll(tokenOk, response, nowStartMs, nowExpiryMs);
        var call := Decision(old(Memory()), poll);
        call != NoCall ==>
          var run := Session.Write(old(session.headers), BodyOf(call), replies, logins);
          && sent == run.sent
          && session.headers == run.headers
          && Memory() == Step(old(Memory()), poll, run.outcome.Done?).next
    {
      sent := [];
      var poll := Poll(tokenOk, response, nowStartMs, nowExpiryMs);
      if poll.Failure? {
        return;
      }
      var current := poll.value;
      if current.Some? {
        if Some(current.value.uid) != lastUid {
          var outcome;
          outcome, sent := session.SetCustomStatus(current.value.text, current.value.expiresAt, replies, logins);
          if outcome.Done? {
            lastUid := Some(current.value.uid);
            lastText := Some(current.value.text);
          }
        }
      } else if lastUid.Some? {
        var outcome;
        outcome, sent := session.ClearCustomStatus(replies, logins);
        if outcome.Done? {
          lastUid := None;
          lastText := None;
        }
      }
    }
  }
}
