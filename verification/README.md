# mm_spotify_status — a verified model of the status reconciler

`mm_spotify_status.py` mirrors the Spotify track a user is playing into their
Mattermost custom status. Each pass of its polling loop fetches an access
token and the "currently playing" response. It derives a snapshot from the
response: the text "artists – title", an expiry stamp, and an episode
identity made of the track key and the inferred start second. It then sets
the status when the identity differs from the last one pushed, clears the
status once when playback stops, and otherwise does nothing. A status write
answered with 401 logs in again, merges the new login headers into the
session headers and resends the same body.

The model has six modules:

- `Wrappers` (wrappers.dfy): `Option` and `Result`.
- `Http` (http.dfy): the status codes `raise_for_status` rejects.
- `Clock` (clock.dfy): the range of a Python `datetime`, and a fixed-width,
  injective rendering of a whole second. It stands in for `strftime`.
- `Playback` (playback.dfy): `spotify_current` after its GET has answered,
  as pure functions over a parsed payload with optional fields and two clock
  readings in milliseconds.
- `Session` (session.dfy): header building in `mm_login`, and
  `mm_set_custom_status` / `mm_clear_custom_status`. `Session.Session` is a
  class over the headers map that the writes update in place. The 401 retry
  is a loop over scripted replies, proved against the function `Write`.
- `Reconciler` (reconciler.dfy): the loop body. `Reconciler.Reconciler`
  holds `lastUid`/`lastText` and its `Tick` method runs one pass. The
  functions `Step` and `Run` describe one tick and a series of ticks, and
  the lemmas about several ticks are proved over them.

The model follows the code as written, including:

- A 401 makes the write log in again and call itself with the same body
  (lines 57 and 72). The code sets no limit of its own on how often that
  happens; only the interpreter's recursion limit does, which the model
  leaves out. `RetriesAreUnbounded` shows that the model resends once per
  401 for as long as the logins succeed.
- A PUT answered with any code other than 401 (a 500, say) ends the write
  as done. `WriteDoneIff` shows this is the only way a write completes:
  after some run of 401s, each answered by a successful login, the next
  reply is a code other than 401. The tick then records the snapshot as
  pushed, so a failed write that is not a 401 is never retried.
- A re-login merges the new headers into the old ones rather than replacing
  them. A header that no re-login supplies keeps its old value
  (`WriteKeepsUnrenewedHeaders`). In particular, an `Authorization` header
  survives logins that return no token (`StaleBearerSurvives`).
- `last_uid`/`last_text` are module globals. Stopping and restarting the
  loop does not reset them: only `OpenSession` runs again.
- A missing track title appears as the text `None` (f-string formatting of
  Python's `None`). A missing artist name contributes "".
- The 204/empty-body test comes before `raise_for_status`. So an error
  status with an empty body reads as "nothing playing".
- The clock is read twice: once for the start stamp and once for the
  expiry stamp. The model takes both readings as parameters.

## Model

| member | source | states |
|---|---|---|
| `Clock.Stamp` | mm_spotify_status.py:115 | every in-range second renders to a string of the same fixed width |
| `Clock.DigitsRoundTrip` | mm_spotify_status.py:115 | reading a rendered number back gives the number: the rendering loses nothing |
| `Clock.StampInjective` | mm_spotify_status.py:115 | two in-range seconds render alike if and only if they are the same second |
| `Playback.ArtistNames` | mm_spotify_status.py:106 | one name per artist, in order; an artist without `name` contributes "" |
| `Playback.JoinSnoc` | mm_spotify_status.py:106 | joining with ", " puts the separator exactly between neighbours: appending an artist appends ", " and its name |
| `Playback.TrackKey` | mm_spotify_status.py:107 | the key is the id if truthy, else the uri if truthy, else the displayed "artists – title"; it is never empty |
| `Playback.RemainingMs` | mm_spotify_status.py:109-111 | missing or zero duration/progress count as 0; the remaining time is never negative and equals duration − progress whenever that is positive |
| `Playback.StartSecond` | mm_spotify_status.py:114-115 | the start second is the whole second containing now − progress |
| `Playback.ExpirySecond` | mm_spotify_status.py:120-121 | the expiry second, in ms, lies in (now + remaining + 2000, now + remaining + 3000], so it is after the track's natural end |
| `Playback.EpisodeIdInjective` | mm_spotify_status.py:118 | "key:stamp" identities are equal if and only if both the track keys and the start seconds are equal |
| `Playback.CurrentIsIdle` | mm_spotify_status.py:95-102 | the poll reports "nothing playing" exactly for a 204, an empty body, or a non-error JSON payload whose `is_playing` is not true |
| `Playback.CurrentSnapshot` | mm_spotify_status.py:104-128 | a snapshot comes only from a non-error, playing payload; its text is "artists – title", its uid is the episode identity of the track key and start second, and its expiry stamp renders a second after now + remaining + 2000 ms |
| `Playback.SameEpisodeIffSameUid` | mm_spotify_status.py:114-118 | two polls that both see playback report the same uid if and only if they see the same track key and infer the same start second |
| `Playback.PlayingTrackSnapshot` | mm_spotify_status.py:104-128 | a playing track with id and title `id`, one artist "A", polled within the datetime range, gives text "A – id", the uid of `id` and its start second, and the stamp of its expiry second |
| `Playback.RepeatPollKeepsUid` | mm_spotify_status.py:114-118 | track X polled 10 s in, and 5 s later 15 s in, keeps its uid |
| `Playback.NewTrackNewUid` | mm_spotify_status.py:107-118 | track Y polled from its start after track X gets a different uid and the text "A – Y" |
| `Playback.Current` | mm_spotify_status.py:95-128 | a snapshot comes only from a non-error response whose payload says it is playing; an HTTP failure carries the response's error status; a response that arrived never fails for the token or as a raised GET |
| `Playback.CurrentFailures` | mm_spotify_status.py:95-121 | an HTTP failure exactly for an error status on a non-empty, non-204 response; a JSON failure exactly for an unparsable body after those tests; an overflow exactly when a playing payload's start or expiry second leaves the datetime range |
| `Playback.CurrentPlays` | mm_spotify_status.py:95-128 | conversely, a non-204, non-error response whose payload is playing and whose start and expiry seconds are in range always yields a snapshot |
| `Playback.Text` | mm_spotify_status.py:125 | the text ends with " – " followed by the title (or "None" when the title is missing) |
| `Playback.Join` | mm_spotify_status.py:106 | the join of no parts is ""; otherwise it starts with the first part and its length is the parts' lengths plus one separator per neighbouring pair |
| `Playback.EpisodeId` | mm_spotify_status.py:118 | the identity is the track key, then ":", then a stamp of fixed width |
| `Session.CookiePart` | mm_spotify_status.py:35 | the cookie is the longest prefix of `Set-Cookie` without ";", ending just before the first ";" if there is one |
| `Session.LoginHeaders` | mm_spotify_status.py:33-40 | a login fails exactly on a raised call or an error status; otherwise only `Authorization` and `Cookie` appear, `Authorization: Bearer <token>` exactly when the token is non-empty, `Cookie` exactly when the cookie part is non-empty |
| `Session.Login` | mm_spotify_status.py:34-42 | building the dictionary entry by entry yields exactly the login headers |
| `Session.WriteResendsSameBody` | mm_spotify_status.py:44-57 | every PUT of a write carries the identical body; the first carries the session headers plus the JSON content type; there are at most as many PUTs as replies |
| `Session.WriteRetriesAfterRelogin` | mm_spotify_status.py:54-57 | each PUT after the first follows a 401 and a successful login, and carries the previous PUT's headers with the login's headers merged in |
| `Session.WriteRetryStep` | mm_spotify_status.py:54-57 | a 401 answered by a successful login sends one PUT, then continues on the remaining replies with the login's headers merged in, and ends as that continuation ends |
| `Session.WriteDoneIff` | mm_spotify_status.py:44-72 | a write is done with a code exactly when, after some run of 401s each answered by a successful login, the next reply is that code and it is not 401 |
| `Session.WriteRaisedIff` | mm_spotify_status.py:44-72 | a write ends in an exception exactly when, after some run of 401s each answered by a successful login, the next PUT raises or draws a 401 whose login raises or is rejected |
| `Session.WriteDoneOnLastReply` | mm_spotify_status.py:53-57 | a write that ends normally ends on its last PUT's reply, which is not 401, and leaves the session headers that PUT carried |
| `Session.RetriesAreUnbounded` | mm_spotify_status.py:54-57 | with 401 after 401 and successful logins, the write sends one PUT per reply and does not end within the script: the code sets no retry limit of its own |
| `Session.WriteKeepsUnrenewedHeaders` | mm_spotify_status.py:56 | a session header that no successful login of the write supplies ends the write with its old value: re-login merges, it does not replace |
| `Session.StaleBearerSurvives` | mm_spotify_status.py:37-38 | an `Authorization` header outlives a write whose logins all return no token |
| `Session.Sent` | mm_spotify_status.py:49 | a PUT carries every session header unchanged, plus `Content-Type: application/json`, which overrides any session entry of that name |
| `Session.Write` | mm_spotify_status.py:44-72 | a write sends at most one PUT per reply, and one that ends normally never ends on a 401 |
| `Session.Session.constructor` | mm_spotify_status.py:137 | the loop's session starts with the headers of its login |
| `Session.Session.Put` | mm_spotify_status.py:46-57 | the PUTs sent, the outcome and the new session headers are those of `Write` from the old headers |
| `Session.Session.SetCustomStatus` | mm_spotify_status.py:44-57 | a set writes the body {musical_note, text, expiry} with the 401 re-login loop |
| `Session.Session.ClearCustomStatus` | mm_spotify_status.py:59-72 | a clear writes the body {"", "", null} with the 401 re-login loop |
| `Reconciler.Decide` | mm_spotify_status.py:142-151 | a set (with the snapshot's text and expiry) exactly when a snapshot's uid differs from the last one pushed; a clear exactly when nothing plays and a status is set; otherwise no call |
| `Reconciler.Poll` | mm_spotify_status.py:140-141 | the poll fails for the token exactly when the token fetch raised, fails as a raised GET exactly when the token was obtained and the GET raised, and otherwise gives the outcome of the response |
| `Reconciler.Decision` | mm_spotify_status.py:141-151 | a call is made only after a successful poll: a set only for a snapshot with a new uid, a clear only when nothing plays and a status is set |
| `Reconciler.Run` | mm_spotify_status.py:138-153 | a series of ticks makes at most one call per tick, and records only real calls |
| `Reconciler.Step` | mm_spotify_status.py:140-153 | a raised poll makes no call; the state changes only after a completed call (set: uid and text; clear: both absent); both variables stay set or absent together |
| `Reconciler.SteadyEpisodeWritesOnce` | mm_spotify_status.py:142-146 | across any number of ticks observing one episode, at most one status write, a set, and none when that episode is already pushed |
| `Reconciler.StoppedPlaybackClearsOnce` | mm_spotify_status.py:147-151 | after playback stops, exactly one clear if a status was set and a poll succeeded, and no call otherwise; the state ends empty in the first case and unchanged in the second |
| `Reconciler.FailedWritesKeepState` | mm_spotify_status.py:139-153 | ticks whose writes do not complete leave `lastUid`/`lastText` unchanged |
| `Reconciler.OpenSession` | mm_spotify_status.py:137 | the loop gets a fresh session exactly when its login succeeds, holding that login's headers |
| `Reconciler.Reconciler.constructor` | mm_spotify_status.py:132-133 | both variables start absent |
| `Reconciler.Reconciler.Tick` | mm_spotify_status.py:139-153 | with no call due, nothing is sent and nothing changes; otherwise the PUTs and headers are those of the write, and the state is `Step`'s for whether the write completed |

## Left out

- HTTP: the login POST, the token POST, the playback GET and the status
  PUTs. Their results are inputs: `LoginReply`, a `tokenOk` flag, an
  `Option<Response>` (None when the GET raised, for example on a timeout),
  and a script of `PutReply` values. The login request body,
  URLs and timeouts are not modelled.
- `spotify_access_token`: modelled only as success or failure. The token
  value only authorises the GET, which is not modelled.
- JSON parsing: the payload is a datatype with optional fields.
  `Payload.isPlaying` is `Option<bool>`. The source tests `is_playing` by
  truthiness, and the model represents only booleans, null and absent.
  A null artist list or a null artist name would make the source raise.
  The model has no such values.
- `datetime.now`: two readings in integer milliseconds. Sub-millisecond
  precision is dropped.
- Clock.Stamp: renders a second as a 12-digit count from
  0001-01-01T00:00:00Z, not in calendar form. The model relies only on
  properties the calendar form shares within the datetime range: fixed width
  and injectivity.
- Session.Session.Put: a write that needs a reply the script does not supply
  ends as `OutOfReplies`, where the source would make that call.
- Session.RetriesAreUnbounded (and Session.Write, Session.Session.Put): the
  interpreter's recursion-depth bound is not modelled. In CPython each 401
  adds a nested call. After about a thousand of them a `RecursionError`
  ends the write. The loop's handler (line 152) swallows it, so the tick
  changes no state, but the headers keep every merge made so far. The model
  instead resends once per scripted 401, however long the script.
- The tray UI (`TrayApp`), the `running` flag, the background thread,
  `time.sleep`, configuration loading and all printing. The model covers one
  pass of the loop, series of passes as values, and the loop start
  (`OpenSession`), not the thread.
