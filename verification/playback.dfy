/**
 * The "currently playing" response and the snapshot derived from it
 * (`spotify_current` once the GET has answered). The parsed JSON is a
 * datatype with optional fields; the clock is passed in as integer
 * milliseconds since the Unix epoch, once for each of the two readings the
 * source takes.
 */
module Playback {
  import opened Wrappers
  import Http
  import Clock

  /** Separator between artists and title: space, EN DASH, space. */
  const Dash: string := " \U{2013} "
  /** Separator between the artist names. */
  const ArtistSeparator: string := ", "
  /** Safety margin added to the remaining play time before the status expires. */
  const ExpiryMarginMs: int := 3000

  datatype Artist = Artist(name: Option<string>)

  /** The `item` object; an absent list of artists is the empty list. */
  datatype Item = Item(
    name: Option<string>,
    artists: seq<Artist>,
    id: Option<string>,
    uri: Option<string>,
    durationMs: Option<int>)

  /** An absent, null or empty `item` reads as this. */
  const NoItem: Item := Item(None, [], None, None, None)

  datatype Payload = Payload(isPlaying: Option<bool>, item: Option<Item>, progressMs: Option<int>)

  /** The response text: empty, not JSON, or a parsed payload. */
  datatype Body = Empty | Malformed | Json(payload: Payload)

  datatype Response = Response(status: int, body: Body)

  /** What the reconciler receives for an active playback. */
  datatype Snapshot = Snapshot(text: string, expiresAt: string, uid: string)

  /** The exceptions a poll can raise before the reconciler sees a snapshot. */
  datatype FetchError =
    | TokenUnavailable      // the access-token exchange raised
    | GetRaised              // the playback GET itself raised (timeout, connection error)
    | HttpError(status: int) // raise_for_status on the playback response
    | MalformedJson          // the body is not JSON
    | ClockOverflow          // a datetime left the representable range

  /** Python truthiness of an optional string: present and non-empty. */
  predicate Truthy(s: Option<string>) {
    s.Some? && s.value != ""
  }

  /** `x or 0` on an optional number: absent (or null) and zero both give 0. */
  function OrZero(n: Option<int>): int {
    n.GetOr(0)
  }

  /** The total length of the parts. */
  function Lengths(parts: seq<string>): nat {
    if parts == [] then 0 else |parts[0]| + Lengths(parts[1..])
  }

  /**
   * `str.join`: the parts with `sep` between neighbours. It starts with the
   * first part and adds one separator per neighbouring pair.
   */
  function Join(parts: seq<string>, sep: string): (r: string)
    ensures parts == [] ==> r == ""
    ensures parts != [] ==> |r| == Lengths(parts) + (|parts| - 1) * |sep|
    ensures parts != [] ==> parts[0] <= r
  {
    if parts == [] then ""
    else if |parts| == 1 then parts[0]
    else parts[0] + sep + Join(parts[1..], sep)
  }

  /** Joining grows left to right: appending a part appends the separator and the part. */
  lemma {:induction false} JoinSnoc(parts: seq<string>, sep: string, last: string)
    ensures Join(parts + [last], sep) == if parts == [] then last else Join(parts, sep) + sep + last
  {
    if |parts| > 1 {
      assert (parts + [last])[1..] == parts[1..] + [last];
      JoinSnoc(parts[1..], sep, last);
    } else if |parts| == 1 {
      assert (parts + [last])[1..] == [last];
    }
  }

  /** Each artist's `name`, "" when missing. */
  function ArtistNames(artists: seq<Artist>): (r: seq<string>)
    ensures |r| == |artists|
    ensures forall i :: 0 <= i < |artists| ==> r[i] == artists[i].name.GetOr("")
  {
    if artists == [] then [] else [artists[0].name.GetOr("")] + ArtistNames(artists[1..])
  }

  /** An f-string renders a missing title as the text "None". */
  function TitleText(name: Option<string>): string {
    match name
    case Some(s) => s
    case None => "None"
  }

  /** The displayed status text, "artists – title". */
  function Text(item: Item): (r: string)
    ensures var title := TitleText(item.name);
      && |r| >= |Dash| + |title|
      && r[|r| - |title|..] == title
      && r[|r| - |title| - |Dash|..|r| - |title|] == Dash
  {
    Join(ArtistNames(item.artists), ArtistSeparator) + Dash + TitleText(item.name)
  }

  /** The track key: the id if truthy, else the uri if truthy, else the displayed text. */
  function TrackKey(item: Item): (r: string)
    ensures Truthy(item.id) ==> r == item.id.value
    ensures !Truthy(item.id) && Truthy(item.uri) ==> r == item.uri.value
    ensures !Truthy(item.id) && !Truthy(item.uri) ==> r == Text(item)
    ensures r != ""
  {
    if Truthy(item.id) then item.id.value
    else if Truthy(item.uri) then item.uri.value
    else
      var t := Text(item);
      assert |t| >= |Dash|;
      t
  }

  /** Milliseconds left to play: never negative, and the difference whenever that is positive. */
  function RemainingMs(durationMs: Option<int>, progressMs: Option<int>): (r: nat)
    ensures r >= OrZero(durationMs) - OrZero(progressMs)
    ensures r == 0 || r == OrZero(durationMs) - OrZero(progressMs)
  {
    if OrZero(durationMs) - OrZero(progressMs) > 0 then OrZero(durationMs) - OrZero(progressMs) else 0
  }

  /** The whole second in which the playback started: `now - progress`, truncated. */
  function StartSecond(nowMs: int, progressMs: int): (r: int)
    ensures r * 1000 <= nowMs - progressMs < r * 1000 + 1000
  {
    (nowMs - progressMs) / 1000
  }

  /** The whole second at which the status expires: `now + remaining + margin`, truncated. */
  function ExpirySecond(nowMs: int, remainingMs: nat): (r: int)
    ensures nowMs + remainingMs + ExpiryMarginMs - 1000 < r * 1000 <= nowMs + remainingMs + ExpiryMarginMs
    ensures r * 1000 > nowMs + remainingMs
  {
    (nowMs + remainingMs + ExpiryMarginMs) / 1000
  }

  /** The playback-episode identity: track key, ":", and the rendered start second. */
  function EpisodeId(trackKey: string, startSecond: int): (r: string)
    requires Clock.InRange(startSecond)
    ensures |r| == |trackKey| + 1 + Clock.StampWidth
    ensures trackKey <= r && r[|trackKey|] == ':'
  {
    trackKey + ":" + Clock.Stamp(startSecond)
  }

  /** Identities agree exactly when both the track key and the start second agree. */
  lemma EpisodeIdInjective(k1: string, s1: int, k2: string, s2: int)
    requires Clock.InRange(s1) && Clock.InRange(s2)
    ensures EpisodeId(k1, s1) == EpisodeId(k2, s2) <==> k1 == k2 && s1 == s2
  {
    if EpisodeId(k1, s1) == EpisodeId(k2, s2) {
      var u := EpisodeId(k1, s1);
      assert |k1| == |k2|;
      assert k1 == u[..|k1|] == k2;
      assert Clock.Stamp(s1) == u[|k1| + 1..] == Clock.Stamp(s2);
      Clock.StampInjective(s1, s2);
    }
  }

  /**
   * The snapshot for a playback response, or None when nothing is playing.
   * `nowStartMs` and `nowExpiryMs` are the two clock readings the source takes
   * for the start stamp and for the expiry stamp.
   */
  function Current(response: Response, nowStartMs: int, nowExpiryMs: int): (r: Result<Option<Snapshot>, FetchError>)
    ensures r.Success? && r.value.Some? ==>
      && response.status != 204 && !Http.RaisesForStatus(response.status)
      && response.body.Json? && response.body.payload.isPlaying == Some(true)
    ensures r.Failure? ==> r.error != TokenUnavailable && r.error != GetRaised
    ensures r.Failure? && r.error.HttpError? ==> r.error.status == response.status && Http.RaisesForStatus(response.status)
  {
    if response.status == 204 || response.body.Empty? then Success(None)
    else if Http.RaisesForStatus(response.status) then Failure(HttpError(response.status))
    else if response.body.Malformed? then Failure(MalformedJson)
    else
      var data := response.body.payload;
      if data.isPlaying != Some(true) then Success(None)
      else
        var item := data.item.GetOr(NoItem);
        var remaining := RemainingMs(item.durationMs, data.progressMs);
        var started := StartSecond(nowStartMs, OrZero(data.progressMs));
        var expires := ExpirySecond(nowExpiryMs, remaining);
        if !Clock.InRange(started) || !Clock.InRange(expires) then Failure(ClockOverflow)
        else Success(Some(Snapshot(Text(item), Clock.Stamp(expires), EpisodeId(TrackKey(item), started))))
  }

  /** The item a payload describes, empty when `item` is absent. */
  function ItemOf(response: Response): Item
    requires response.body.Json?
  {
    response.body.payload.item.GetOr(NoItem)
  }

  /** The poll reports "nothing playing" exactly for a 204, an empty body, or a payload not marked playing. */
  lemma CurrentIsIdle(response: Response, nowStartMs: int, nowExpiryMs: int)
    ensures Current(response, nowStartMs, nowExpiryMs) == Success(None) <==>
      || response.status == 204
      || response.body.Empty?
      || (!Http.RaisesForStatus(response.status) && response.body.Json? && response.body.payload.isPlaying != Some(true))
  {
  }

  /**
   * Which failure a poll reports is decided by the response alone: an HTTP
   * error exactly for an error status on a non-empty, non-204 response, a
   * JSON failure exactly for an unparsable body after that, and an overflow
   * exactly when a playing payload's start or expiry second leaves the
   * datetime range.
   */
  lemma CurrentFailures(response: Response, nowStartMs: int, nowExpiryMs: int)
    ensures var r := Current(response, nowStartMs, nowExpiryMs);
            r.Failure? && r.error.HttpError? <==>
              response.status != 204 && !response.body.Empty? && Http.RaisesForStatus(response.status)
    ensures Current(response, nowStartMs, nowExpiryMs) == Failure(MalformedJson) <==>
              response.status != 204 && !Http.RaisesForStatus(response.status) && response.body.Malformed?
    ensures Current(response, nowStartMs, nowExpiryMs) == Failure(ClockOverflow) <==>
              && response.status != 204 && !Http.RaisesForStatus(response.status)
              && response.body.Json? && response.body.payload.isPlaying == Some(true)
              && var progress := response.body.payload.progressMs;
                 || !Clock.InRange(StartSecond(nowStartMs, OrZero(progress)))
                 || !Clock.InRange(ExpirySecond(nowExpiryMs, RemainingMs(ItemOf(response).durationMs, progress)))
  {
  }

  /** Conversely, a playing payload whose start and expiry seconds are representable always yields a snapshot. */
  lemma CurrentPlays(response: Response, nowStartMs: int, nowExpiryMs: int)
    requires response.status != 204 && !Http.RaisesForStatus(response.status)
    requires response.body.Json? && response.body.payload.isPlaying == Some(true)
    requires Clock.InRange(StartSecond(nowStartMs, OrZero(response.body.payload.progressMs)))
    requires Clock.InRange(ExpirySecond(nowExpiryMs, RemainingMs(ItemOf(response).durationMs, response.body.payload.progressMs)))
    ensures var r := Current(response, nowStartMs, nowExpiryMs);
            r.Success? && r.value.Some?
  {
  }

  /** A snapshot shows "artists – title", names the episode by track key and start second, and expires after the track ends. */
  lemma CurrentSnapshot(response: Response, nowStartMs: int, nowExpiryMs: int, snap: Snapshot)
    requires Current(response, nowStartMs, nowExpiryMs) == Success(Some(snap))
    ensures response.status != 204 && !Http.RaisesForStatus(response.status)
    ensures response.body.Json? && response.body.payload.isPlaying == Some(true)
    ensures snap.text == Text(ItemOf(response))
    ensures var progress := OrZero(response.body.payload.progressMs);
            var start := StartSecond(nowStartMs, progress);
            Clock.InRange(start) && snap.uid == EpisodeId(TrackKey(ItemOf(response)), start)
    ensures var remaining := RemainingMs(ItemOf(response).durationMs, response.body.payload.progressMs);
            var expires := ExpirySecond(nowExpiryMs, remaining);
            Clock.InRange(expires) && snap.expiresAt == Clock.Stamp(expires)
            && expires * 1000 > nowExpiryMs + remaining + ExpiryMarginMs - 1000
  {
  }

  /**
   * Two polls that both see a playback report the same identity exactly when
   * they see the same track key and infer the same start second.
   */
  lemma SameEpisodeIffSameUid(r1: Response, start1: int, expiry1: int, s1: Snapshot,
                              r2: Response, start2: int, expiry2: int, s2: Snapshot)
    requires Current(r1, start1, expiry1) == Success(Some(s1))
    requires Current(r2, start2, expiry2) == Success(Some(s2))
    ensures s1.uid == s2.uid <==>
      && TrackKey(ItemOf(r1)) == TrackKey(ItemOf(r2))
      && StartSecond(start1, OrZero(r1.body.payload.progressMs)) == StartSecond(start2, OrZero(r2.body.payload.progressMs))
  {
    CurrentSnapshot(r1, start1, expiry1, s1);
    CurrentSnapshot(r2, start2, expiry2, s2);
    EpisodeIdInjective(TrackKey(ItemOf(r1)), StartSecond(start1, OrZero(r1.body.payload.progressMs)),
                       TrackKey(ItemOf(r2)), StartSecond(start2, OrZero(r2.body.payload.progressMs)));
  }

  /** A playing response for a track with id `id`, title `id`, one artist "A", 200 s long, at `progressMs`. */
  function PlayingTrack(id: string, progressMs: int): Response {
    Response(200, Json(Payload(Some(true), Some(Item(Some(id), [Artist(Some("A"))], Some(id), None, Some(200000))), Some(progressMs))))
  }

  /** A playing track polled within the datetime range yields its snapshot. */
  lemma PlayingTrackSnapshot(id: string, progressMs: int, nowMs: int)
    requires id != ""
    requires 0 <= progressMs <= 200000
    requires 0 <= nowMs <= 200_000_000_000_000
    ensures Current(PlayingTrack(id, progressMs), nowMs, nowMs)
         == Success(Some(Snapshot("A" + Dash + id,
                                  Clock.Stamp(ExpirySecond(nowMs, 200000 - progressMs)),
                                  EpisodeId(id, StartSecond(nowMs, progressMs)))))
  {
    var item := ItemOf(PlayingTrack(id, progressMs));
    assert ArtistNames(item.artists) == ["A"];
    assert Text(item) == "A" + Dash + id;
    assert TrackKey(item) == id;
  }

  /** Track "X" seen 10 s in, then 5 s later 15 s in, keeps its identity. */
  lemma RepeatPollKeepsUid(t0: int)
    requires 0 <= t0 <= 100_000_000_000_000
    ensures var first := Current(PlayingTrack("X", 10000), t0, t0);
            var second := Current(PlayingTrack("X", 15000), t0 + 5000, t0 + 5000);
            && first.Success? && first.value.Some?
            && second.Success? && second.value.Some?
            && first.value.value.uid == second.value.value.uid
  {
    PlayingTrackSnapshot("X", 10000, t0);
    PlayingTrackSnapshot("X", 15000, t0 + 5000);
    assert StartSecond(t0, 10000) == StartSecond(t0 + 5000, 15000);
  }

  /** Track "Y" seen from its start 10 s after track "X" was seen 10 s in gets a new identity and its own text. */
  lemma NewTrackNewUid(t0: int)
    requires 0 <= t0 <= 100_000_000_000_000
    ensures var first := Current(PlayingTrack("X", 10000), t0, t0);
            var third := Current(PlayingTrack("Y", 0), t0 + 10000, t0 + 10000);
            && first.Success? && first.value.Some?
            && third.Success? && third.value.Some?
            && third.value.value.uid != first.value.value.uid
            && third.value.value.text == "A" + Dash + "Y"
  {
    PlayingTrackSnapshot("X", 10000, t0);
    PlayingTrackSnapshot("Y", 0, t0 + 10000);
    EpisodeIdInjective("Y", StartSecond(t0 + 10000, 0), "X", StartSecond(t0, 10000));
  }
}
