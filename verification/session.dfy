/**
 * The status-sink session: the login headers, and the custom-status writes
 * that log in again and resend the same body whenever the server answers 401.
 * Every network exchange is replaced by a scripted reply, consumed in order.
 */
module Session {
  import opened Wrappers
  import Http

  type Headers = map<string, string>

  const Authorization: string := "Authorization"
  const Cookie: string := "Cookie"
  const ContentType: string := "Content-Type"
  const Json: string := "application/json"
  /** The emoji a set request carries. */
  const Emoji: string := "musical_note"
  /** The status code that makes a write log in again. */
  const Unauthorized: int := 401

  /** The reply to the login POST: status, `Token` header and `Set-Cookie` header ("" when absent), or a raised call. */
  datatype LoginReply = LoginReply(status: int, token: string, setCookie: string) | LoginRaised

  /** The reply to one status PUT: a status code, or a raised call (timeout, connection error). */
  datatype PutReply = PutStatus(code: int) | PutRaised

  /** The JSON body of a status PUT. */
  datatype StatusBody = StatusBody(emoji: string, text: string, expiresAt: Option<string>)

  /** One PUT as sent: its headers and its body. */
  datatype Request = Request(headers: Headers, body: StatusBody)

  /**
   * How a write ends: a reply other than 401, an exception, or a script that
   * ran out before the write ended (the source would go on calling).
   */
  datatype WriteOutcome = Done(code: int) | Raised | OutOfReplies

  /** A whole write: how it ended, the session headers afterwards, and the PUTs sent. */
  datatype WriteRun = WriteRun(outcome: WriteOutcome, headers: Headers, sent: seq<Request>)

  function SetBody(text: string, expiresAt: string): StatusBody {
    StatusBody(Emoji, text, Some(expiresAt))
  }

  /** Empty emoji and text with a null expiry clear the status. */
  const ClearBody: StatusBody := StatusBody("", "", None)

  /** The text of a `Set-Cookie` header before its first ";". */
  function CookiePart(setCookie: string): (r: string)
    ensures r <= setCookie
    ensures ';' !in r
    ensures |r| < |setCookie| ==> setCookie[|r|] == ';'
  {
    if setCookie == [] || setCookie[0] == ';' then []
    else [setCookie[0]] + CookiePart(setCookie[1..])
  }

  /** The headers a login yields, or None when the login raises. */
  function LoginHeaders(reply: LoginReply): (r: Option<Headers>)
    ensures r.None? <==> reply.LoginRaised? || Http.RaisesForStatus(reply.status)
    ensures r.Some? ==> r.value.Keys <= {Authorization, Cookie}
    ensures r.Some? ==> (Authorization in r.value <==> reply.token != "")
    ensures r.Some? && Authorization in r.value ==> r.value[Authorization] == "Bearer " + reply.token
    ensures r.Some? ==> (Cookie in r.value <==> CookiePart(reply.setCookie) != "")
    ensures r.Some? && Cookie in r.value ==> r.value[Cookie] == CookiePart(reply.setCookie)
  {
    if reply.LoginRaised? || Http.RaisesForStatus(reply.status) then None
    else
      var bearer: Headers := if reply.token != "" then map[Authorization := "Bearer " + reply.token] else map[];
      var cookie := CookiePart(reply.setCookie);
      Some(if cookie != "" then bearer[Cookie := cookie] else bearer)
  }

  /** Logs in: builds the header dictionary one entry at a time. */
  method Login(reply: LoginReply) returns (h: Option<Headers>)
    ensures h == LoginHeaders(reply)
  {
    if reply.LoginRaised? || Http.RaisesForStatus(reply.status) {
      return None;
    }
    var token := reply.token;
    var cookie := CookiePart(reply.setCookie);
    var m: Headers := map[];
    if token != "" {
      m := m[Authorization := "Bearer " + token];
    }
    if cookie != "" {
      m := m[Cookie := cookie];
    }
    h := Some(m);
  }

  /** The headers a PUT carries: the session's, with the JSON content type on top. */
  function Sent(headers: Headers): (r: Headers)
    ensures r.Keys == headers.Keys + {ContentType}
    ensures r[ContentType] == Json
    ensures forall key :: key in headers && key != ContentType ==> r[key] == headers[key]
  {
    headers[ContentType := Json]
  }

  /**
   * A status write from session headers `headers`: PUT `body`; on 401 log in
   * with the next login reply, merge its headers into the session's and PUT
   * the same body again.
   */
  function Write(headers: Headers, body: StatusBody, replies: seq<PutReply>, logins: seq<LoginReply>): (r: WriteRun)
    ensures |r.sent| <= |replies|
    ensures r.outcome.Done? ==> r.outcome.code != Unauthorized
    decreases |replies|
  {
    if replies == [] then WriteRun(OutOfReplies, headers, [])
    else
      var request := Request(Sent(headers), body);
      match replies[0]
      case PutRaised => WriteRun(Raised, headers, [request])
      case PutStatus(code) =>
        if code != Unauthorized then WriteRun(Done(code), headers, [request])
        else if logins == [] then WriteRun(OutOfReplies, headers, [request])
        else
          match LoginHeaders(logins[0])
          case None => WriteRun(Raised, headers, [request])
          case Some(renewed) =>
            var rest := Write(headers + renewed, body, replies[1..], logins[1..]);
            rest.(sent := [request] + rest.sent)
  }

  /** The PUTs of a write, with `earlier` sent before them. */
  function After(earlier: seq<Request>, run: WriteRun): WriteRun {
    run.(sent := earlier + run.sent)
  }

  /**
   * Every PUT of a write carries the identical body, the first carries the
   * session's headers, and there is at most one PUT per scripted reply.
   */
  lemma {:induction false} WriteResendsSameBody(headers: Headers, body: StatusBody, replies: seq<PutReply>, logins: seq<LoginReply>)
    ensures |Write(headers, body, replies, logins).sent| <= |replies|
    ensures Write(headers, body, replies, logins).sent == [] <==> replies == []
    ensures var sent := Write(headers, body, replies, logins).sent;
      sent != [] ==> sent[0].headers == Sent(headers)
    ensures var sent := Write(headers, body, replies, logins).sent;
      forall k :: 0 <= k < |sent| ==> sent[k].body == body
    decreases |replies|
  {
    if replies != [] && replies[0].PutStatus? && replies[0].code == Unauthorized && logins != [] {
      var renewed := LoginHeaders(logins[0]);
      if renewed.Some? {
        WriteResendsSameBody(headers + renewed.value, body, replies[1..], logins[1..]);
      }
    }
  }

  /**
   * The `j`-th PUT of a write is a resend: the one before it drew a 401, the
   * `j`-th login succeeded, and its headers are the previous PUT's headers with
   * that login's headers merged in.
   */
  predicate ResentAfterRelogin(sent: seq<Request>, replies: seq<PutReply>, logins: seq<LoginReply>, j: int)
    requires 1 <= j < |sent|
  {
    && j <= |replies| && j <= |logins|
    && replies[j - 1] == PutStatus(Unauthorized)
    && LoginHeaders(logins[j - 1]).Some?
    && sent[j].headers == sent[j - 1].headers + LoginHeaders(logins[j - 1]).value
  }

  /** Every PUT after the first is a resend after a 401 and a re-login. */
  lemma {:induction false} WriteRetriesAfterRelogin(headers: Headers, body: StatusBody, replies: seq<PutReply>, logins: seq<LoginReply>)
    ensures |Write(headers, body, replies, logins).sent| <= |logins| + 1
    ensures var sent := Write(headers, body, replies, logins).sent;
      forall j :: 1 <= j < |sent| ==> ResentAfterRelogin(sent, replies, logins, j)
    decreases |replies|
  {
    if replies != [] && replies[0].PutStatus? && replies[0].code == Unauthorized && logins != [] {
      var renewed := LoginHeaders(logins[0]);
      if renewed.Some? {
        var rest := Write(headers + renewed.value, body, replies[1..], logins[1..]);
        WriteRetriesAfterRelogin(headers + renewed.value, body, replies[1..], logins[1..]);
        WriteResendsSameBody(headers + renewed.value, body, replies[1..], logins[1..]);
        var sent := Write(headers, body, replies, logins).sent;
        assert sent == [Request(Sent(headers), body)] + rest.sent;
        forall j | 1 <= j < |sent|
          ensures ResentAfterRelogin(sent, replies, logins, j)
        {
          if j == 1 {
            assert ContentType !in renewed.value;
            assert sent[1].headers == Sent(headers + renewed.value) == Sent(headers) + renewed.value;
          } else {
            assert ResentAfterRelogin(rest.sent, replies[1..], logins[1..], j - 1);
          }
        }
      }
    }
  }

  /**
   * A write that is done ended on the reply to its last PUT, which is not
   * 401, and leaves the session with the headers that PUT carried.
   */
  lemma {:induction false} WriteDoneOnLastReply(headers: Headers, body: StatusBody, replies: seq<PutReply>, logins: seq<LoginReply>)
    requires Write(headers, body, replies, logins).outcome.Done?
    ensures var run := Write(headers, body, replies, logins);
      && run.outcome.code != Unauthorized
      && 0 < |run.sent| <= |replies|
      && replies[|run.sent| - 1] == PutStatus(run.outcome.code)
      && Sent(run.headers) == run.sent[|run.sent| - 1].headers
    decreases |replies|
  {
    var run := Write(headers, body, replies, logins);
    if replies[0].PutStatus? && replies[0].code == Unauthorized {
      var renewed := LoginHeaders(logins[0]).value;
      var rest := Write(headers + renewed, body, replies[1..], logins[1..]);
      WriteRetryStep(headers, body, replies, logins);
      WriteDoneOnLastReply(headers + renewed, body, replies[1..], logins[1..]);
      var n := |rest.sent|;
      assert replies[n] == replies[1..][n - 1];
      assert run.sent[n] == rest.sent[n - 1];
    }
  }

  /** A 401 answered by a successful login sends one PUT and continues with the merged headers on the remaining replies. */
  lemma WriteRetryStep(headers: Headers, body: StatusBody, replies: seq<PutReply>, logins: seq<LoginReply>)
    requires replies != [] && replies[0] == PutStatus(Unauthorized)
    requires logins != [] && LoginHeaders(logins[0]).Some?
    ensures var run := Write(headers, body, replies, logins);
            var rest := Write(headers + LoginHeaders(logins[0]).value, body, replies[1..], logins[1..]);
            && run.outcome == rest.outcome && run.headers == rest.headers
            && run.sent == [Request(Sent(headers), body)] + rest.sent
  {
  }

  /**
   * The code sets no retry limit of its own: while the server keeps answering
   * 401 and logins keep succeeding, the write keeps sending, one PUT per reply.
   */
  lemma {:induction false} RetriesAreUnbounded(headers: Headers, body: StatusBody, replies: seq<PutReply>, logins: seq<LoginReply>)
    requires forall k :: 0 <= k < |replies| ==> replies[k] == PutStatus(Unauthorized)
    requires |logins| >= |replies|
    requires forall k :: 0 <= k < |logins| ==> LoginHeaders(logins[k]).Some?
    ensures Write(headers, body, replies, logins).outcome == OutOfReplies
    ensures |Write(headers, body, replies, logins).sent| == |replies|
    decreases |replies|
  {
    if replies != [] {
      var renewed := LoginHeaders(logins[0]).value;
      RetriesAreUnbounded(headers + renewed, body, replies[1..], logins[1..]);
    }
  }

  /** The first `k` PUTs each drew a 401 that a successful login answered. */
  predicate RetriedThrough(replies: seq<PutReply>, logins: seq<LoginReply>, k: nat) {
    && k <= |replies| && k <= |logins|
    && forall j :: 0 <= j < k ==> replies[j] == PutStatus(Unauthorized) && LoginHeaders(logins[j]).Some?
  }

  /** PUT number `k` raised, or drew a 401 whose login then raised or failed. */
  predicate BrokeAt(replies: seq<PutReply>, logins: seq<LoginReply>, k: nat)
    requires k < |replies|
  {
    || replies[k] == PutRaised
    || (replies[k] == PutStatus(Unauthorized) && k < |logins| && LoginHeaders(logins[k]).None?)
  }

  /** A retried prefix one longer is a retry at the head followed by a retried prefix of the tails. */
  lemma RetriedThroughShift(replies: seq<PutReply>, logins: seq<LoginReply>, k: nat)
    requires replies != [] && logins != []
    ensures RetriedThrough(replies, logins, k + 1) <==>
      && replies[0] == PutStatus(Unauthorized) && LoginHeaders(logins[0]).Some?
      && RetriedThrough(replies[1..], logins[1..], k)
  {
    if replies[0] == PutStatus(Unauthorized) && LoginHeaders(logins[0]).Some? && RetriedThrough(replies[1..], logins[1..], k) {
      forall j | 0 <= j < k + 1
        ensures replies[j] == PutStatus(Unauthorized) && LoginHeaders(logins[j]).Some?
      {
        if j > 0 {
          assert replies[j] == replies[1..][j - 1] && logins[j] == logins[1..][j - 1];
        }
      }
    }
    if RetriedThrough(replies, logins, k + 1) {
      forall j | 0 <= j < k
        ensures replies[1..][j] == PutStatus(Unauthorized) && LoginHeaders(logins[1..][j]).Some?
      {
        assert replies[1..][j] == replies[j + 1] && logins[1..][j] == logins[j + 1];
      }
    }
  }

  /** When the head reply does not lead to a retry, no retried prefix is longer than zero. */
  lemma NoRetryPastHead(replies: seq<PutReply>, logins: seq<LoginReply>, k: nat)
    requires replies != []
    requires !(replies[0] == PutStatus(Unauthorized) && logins != [] && LoginHeaders(logins[0]).Some?)
    requires RetriedThrough(replies, logins, k)
    ensures k == 0
  {
  }

  /**
   * A write is done with `code` exactly when, after some run of 401s each
   * answered by a successful login, the next reply is the non-401 `code`.
   */
  lemma {:induction false} WriteDoneIff(headers: Headers, body: StatusBody, replies: seq<PutReply>, logins: seq<LoginReply>, code: int)
    ensures Write(headers, body, replies, logins).outcome == Done(code) <==>
      exists k: nat :: k < |replies| && RetriedThrough(replies, logins, k) && replies[k] == PutStatus(code) && code != Unauthorized
    decreases |replies|
  {
    if replies == [] {
      return;
    }
    if replies[0] == PutStatus(Unauthorized) && logins != [] && LoginHeaders(logins[0]).Some? {
      var renewed := LoginHeaders(logins[0]).value;
      WriteDoneIff(headers + renewed, body, replies[1..], logins[1..], code);
      if exists k: nat :: k < |replies[1..]| && RetriedThrough(replies[1..], logins[1..], k) && replies[1..][k] == PutStatus(code) && code != Unauthorized {
        var k: nat :| k < |replies[1..]| && RetriedThrough(replies[1..], logins[1..], k) && replies[1..][k] == PutStatus(code) && code != Unauthorized;
        RetriedThroughShift(replies, logins, k);
        assert replies[k + 1] == replies[1..][k];
      }
      if exists k: nat :: k < |replies| && RetriedThrough(replies, logins, k) && replies[k] == PutStatus(code) && code != Unauthorized {
        var k: nat :| k < |replies| && RetriedThrough(replies, logins, k) && replies[k] == PutStatus(code) && code != Unauthorized;
        assert k != 0;
        RetriedThroughShift(replies, logins, k - 1);
        assert replies[1..][k - 1] == replies[k];
      }
    } else {
      assert RetriedThrough(replies, logins, 0);
      forall k: nat | k < |replies| && RetriedThrough(replies, logins, k)
        ensures k == 0
      {
        NoRetryPastHead(replies, logins, k);
      }
    }
  }

  /**
   * A write ends in an exception exactly when, after some run of 401s each
   * answered by a successful login, the next PUT raises or its login fails.
   */
  lemma {:induction false} WriteRaisedIff(headers: Headers, body: StatusBody, replies: seq<PutReply>, logins: seq<LoginReply>)
    ensures Write(headers, body, replies, logins).outcome == Raised <==>
      exists k: nat :: k < |replies| && RetriedThrough(replies, logins, k) && BrokeAt(replies, logins, k)
    decreases |replies|
  {
    if replies == [] {
      return;
    }
    if replies[0] == PutStatus(Unauthorized) && logins != [] && LoginHeaders(logins[0]).Some? {
      var renewed := LoginHeaders(logins[0]).value;
      WriteRaisedIff(headers + renewed, body, replies[1..], logins[1..]);
      if exists k: nat :: k < |replies[1..]| && RetriedThrough(replies[1..], logins[1..], k) && BrokeAt(replies[1..], logins[1..], k) {
        var k: nat :| k < |replies[1..]| && RetriedThrough(replies[1..], logins[1..], k) && BrokeAt(replies[1..], logins[1..], k);
        RetriedThroughShift(replies, logins, k);
        assert replies[k + 1] == replies[1..][k];
        assert k + 1 < |logins| ==> logins[k + 1] == logins[1..][k];
        assert BrokeAt(replies, logins, k + 1);
      }
      if exists k: nat :: k < |replies| && RetriedThrough(replies, logins, k) && BrokeAt(replies, logins, k) {
        var k: nat :| k < |replies| && RetriedThrough(replies, logins, k) && BrokeAt(replies, logins, k);
        assert k != 0;
        RetriedThroughShift(replies, logins, k - 1);
        assert replies[1..][k - 1] == replies[k];
        assert k < |logins| ==> logins[1..][k - 1] == logins[k];
        assert BrokeAt(replies[1..], logins[1..], k - 1);
      }
    } else {
      assert RetriedThrough(replies, logins, 0);
      forall k: nat | k < |replies| && RetriedThrough(replies, logins, k)
        ensures k == 0
      {
        NoRetryPastHead(replies, logins, k);
      }
    }
  }

  /**
   * A re-login merges, it does not replace: a session header that no
   * successful login of the write supplies keeps its value to the end.
   */
  lemma {:induction false} WriteKeepsUnrenewedHeaders(headers: Headers, body: StatusBody, replies: seq<PutReply>, logins: seq<LoginReply>, key: string)
    requires key in headers
    requires forall k :: 0 <= k < |logins| && LoginHeaders(logins[k]).Some? ==> key !in LoginHeaders(logins[k]).value
    ensures key in Write(headers, body, replies, logins).headers
    ensures Write(headers, body, replies, logins).headers[key] == headers[key]
    decreases |replies|
  {
    if replies != [] && replies[0].PutStatus? && replies[0].code == Unauthorized && logins != [] {
      var renewed := LoginHeaders(logins[0]);
      if renewed.Some? {
        forall k | 0 <= k < |logins[1..]| && LoginHeaders(logins[1..][k]).Some?
          ensures key !in LoginHeaders(logins[1..][k]).value
        {
          assert logins[1..][k] == logins[k + 1];
        }
        WriteKeepsUnrenewedHeaders(headers + renewed.value, body, replies[1..], logins[1..], key);
      }
    }
  }

  /** An `Authorization` header outlives a write whose logins all return no token. */
  lemma StaleBearerSurvives(headers: Headers, body: StatusBody, replies: seq<PutReply>, logins: seq<LoginReply>)
    requires Authorization in headers
    requires forall k :: 0 <= k < |logins| ==> logins[k].LoginRaised? || logins[k].token == ""
    ensures Authorization in Write(headers, body, replies, logins).headers
    ensures Write(headers, body, replies, logins).headers[Authorization] == headers[Authorization]
  {
    WriteKeepsUnrenewedHeaders(headers, body, replies, logins, Authorization);
  }

  /** The session headers the loop owns, updated in place by re-logins. */
  class Session {
    var headers: Headers

    constructor(initial: Headers)
      ensures headers == initial
    {
      headers := initial;
    }

    /** One PUT of `body`, repeated after each 401 and re-login, until a reply ends it. */
    method Put(body: StatusBody, replies: seq<PutReply>, logins: seq<LoginReply>) returns (outcome: WriteOutcome, sent: seq<Request>)
      modifies this
      ensures WriteRun(outcome, headers, sent) == Write(old(headers), body, replies, logins)
    {
      sent := [];
      var i := 0;
      while i < |replies|
        invariant i <= |replies| && (i <= |logins|)
        invariant Write(old(headers), body, replies, logins) == After(sent, Write(headers, body, replies[i..], logins[i..]))
        decreases |replies| - i
      {
        ghost var rest := Write(headers, body, replies[i..], logins[i..]);
        ghost var earlier := sent;
        var request := Request(Sent(headers), body);
        sent := sent + [request];
        assert replies[i..][0] == replies[i];
        match replies[i]
        case PutRaised =>
          assert rest == WriteRun(Raised, headers, [request]);
          outcome := Raised;
          return;
        case PutStatus(code) =>
          if code != Unauthorized {
            assert rest == WriteRun(Done(code), headers, [request]);
            outcome := Done(code);
            return;
          }
          if i == |logins| {
            assert rest == WriteRun(OutOfReplies, headers, [request]);
            outcome := OutOfReplies;
            return;
          }
          assert logins[i..][0] == logins[i];
          var renewed := Login(logins[i]);
          if renewed.None? {
            assert rest == WriteRun(Raised, headers, [request]);
            outcome := Raised;
            return;
          }
          assert replies[i..][1..] == replies[i + 1..];
          assert logins[i..][1..] == logins[i + 1..];
          ghost var next := Write(headers + renewed.value, body, replies[i + 1..], logins[i + 1..]);
          assert rest == After([request], next);
          assert earlier + ([request] + next.sent) == sent + next.sent;
          headers := headers + renewed.value;
          i := i + 1;
      }
      outcome := OutOfReplies;
    }

    /** `mm_set_custom_status`: set the status text and its expiry. */
    method SetCustomStatus(text: string, expiresAt: string, replies: seq<PutReply>, logins: seq<LoginReply>)
      returns (outcome: WriteOutcome, sent: seq<Request>)
      modifies this
      ensures WriteRun(outcome, headers, sent) == Write(old(headers), SetBody(text, expiresAt), replies, logins)
    {
      outcome, sent := Put(SetBody(text, expiresAt), replies, logins);
    }

    /** `mm_clear_custom_status`: clear the status. */
    method ClearCustomStatus(replies: seq<PutReply>, logins: seq<LoginReply>)
      returns (outcome: WriteOutcome, sent: seq<Request>)
      modifies this
      ensures WriteRun(outcome, headers, sent) == Write(old(headers), ClearBody, replies, logins)
    {
      outcome, sent := Put(ClearBody, replies, logins);
    }
  }
}
