/** The wire side of an Audioscrobbler 1.2 submission: the ordered list of
    form fields a batch of tracks is sent as, a reader for that list, and
    the classification of the server's text reply by its prefix. */
module Protocol {

  import opened Text

  /** One queued play, with the attributes the submission sends. */
  datatype Track = Track(artist: string, album: string, title: string, when: int, duration: int)

  /** The session id and submission URI obtained by the handshake. */
  datatype HandshakeResult = HandshakeResult(sessionId: string, scrobbleUri: string)

  /** One name/value pair of the form-urlencoded request body. */
  datatype Field = Field(name: string, value: string)

  /** The positional key suffix `[i]` of track `i`. */
  function Index(i: nat): string {
    "[" + IntToString(i) + "]"
  }

  /** The form key of field `tag` of track `i`, such as `a[3]`. */
  function Key(tag: string, i: nat): string {
    tag + Index(i)
  }

  /** The nine fields of the track at position `i`, in submission order:
      artist, album, title, start time, source ("P" for a player), duration,
      and the empty track number, MusicBrainz id and rating. */
  function TrackFields(t: Track, i: nat): (f: seq<Field>)
    ensures |f| == 9
  {
    [ Field(Key("a", i), t.artist),
      Field(Key("b", i), t.album),
      Field(Key("t", i), t.title),
      Field(Key("i", i), IntToString(t.when)),
      Field(Key("o", i), "P"),
      Field(Key("l", i), IntToString(t.duration)),
      Field(Key("n", i), ""),
      Field(Key("m", i), ""),
      Field(Key("r", i), "") ]
  }

  /** The fields of a whole batch, track after track, each keyed by its position. */
  function EncodeTracks(ts: seq<Track>): (fs: seq<Field>)
    ensures |fs| == 9 * |ts|
    decreases |ts|
  {
    if ts == [] then []
    else EncodeTracks(ts[..|ts| - 1]) + TrackFields(ts[|ts| - 1], |ts| - 1)
  }

  /** The request body of a submission: the session id, then every track. */
  function EncodeRequest(sessionId: string, ts: seq<Track>): (r: seq<Field>)
    ensures |r| == 1 + 9 * |ts| && r[0] == Field("s", sessionId)
  {
    [Field("s", sessionId)] + EncodeTracks(ts)
  }

  /** Builds the request fields as the submission does: a list that starts
      with the session id, then nine fields appended per track. */
  method BuildRequest(session: HandshakeResult, tracks: seq<Track>) returns (data: seq<Field>)
    ensures data == EncodeRequest(session.sessionId, tracks)
  {
    data := [Field("s", session.sessionId)];
    for i := 0 to |tracks|
      invariant data == [Field("s", session.sessionId)] + EncodeTracks(tracks[..i])
    {
      data := AddTrack(data, tracks[i], i);
      EncodeTracksStep(tracks, i);
    }
    assert tracks[..|tracks|] == tracks;
  }

  /** One more track appends its nine fields to those of the tracks before it. */
  lemma EncodeTracksStep(ts: seq<Track>, i: nat)
    requires i < |ts|
    ensures EncodeTracks(ts[..i + 1]) == EncodeTracks(ts[..i]) + TrackFields(ts[i], i)
  {
    var prefix := ts[..i + 1];
    assert prefix[..|prefix| - 1] == ts[..i];
    assert prefix[|prefix| - 1] == ts[i];
  }

  /** Appends the nine fields of the track at position `i`, one by one. */
  method AddTrack(data: seq<Field>, track: Track, i: nat) returns (data': seq<Field>)
    ensures data' == data + TrackFields(track, i)
  {
    data' := data + [Field(Key("a", i), track.artist)];
    data' := data' + [Field(Key("b", i), track.album)];
    data' := data' + [Field(Key("t", i), track.title)];
    data' := data' + [Field(Key("i", i), IntToString(track.when))];
    data' := data' + [Field(Key("o", i), "P")];
    data' := data' + [Field(Key("l", i), IntToString(track.duration))];
    data' := data' + [Field(Key("n", i), "")];
    data' := data' + [Field(Key("m", i), "")];
    data' := data' + [Field(Key("r", i), "")];
  }

  lemma SliceOfAppend<T>(a: seq<T>, b: seq<T>, lo: nat, hi: nat)
    requires lo <= hi <= |a| + |b|
    ensures hi <= |a| ==> (a + b)[lo..hi] == a[lo..hi]
    ensures |a| <= lo ==> (a + b)[lo..hi] == b[lo - |a| .. hi - |a|]
  {
  }

  /** The nine fields of track `i` start at offset `9i` of the batch's fields. */
  lemma {:induction false} EncodeTracksAt(ts: seq<Track>, i: nat)
    requires i < |ts|
    ensures |EncodeTracks(ts)| == 9 * |ts|
    ensures EncodeTracks(ts)[9 * i .. 9 * i + 9] == TrackFields(ts[i], i)
    decreases |ts|
  {
    var init := ts[..|ts| - 1];
    var head := EncodeTracks(init);
    var last := TrackFields(ts[|ts| - 1], |init|);
    assert EncodeTracks(ts) == head + last;
    if i < |init| {
      assert ts[i] == init[i];
      EncodeTracksAt(init, i);
      SliceOfAppend(head, last, 9 * i, 9 * i + 9);
      assert (head + last)[9 * i .. 9 * i + 9] == head[9 * i .. 9 * i + 9];
    } else {
      assert 9 * i == |head| && ts[i] == ts[|ts| - 1];
      assert TrackFields(ts[i], i) == last;
      SliceOfAppend(head, last, |head|, |head| + 9);
      assert (head + last)[9 * i .. 9 * i + 9] == last[0..9] == last;
    }
  }

  /** The fields of track `i`, one by one: its artist, album, title, start
      time and duration unchanged, `o[i]` always "P" and `n[i]`, `m[i]`,
      `r[i]` always empty. This only reads `TrackFields` back; the layout is
      checked independently by `DecodeTrack`, and `DecodeEncodeRequest` is
      the property that relies on it. */
  lemma TrackFieldsContents(t: Track, i: nat)
    ensures var f := TrackFields(t, i);
      f[0] == Field(Key("a", i), t.artist) &&
      f[1] == Field(Key("b", i), t.album) &&
      f[2] == Field(Key("t", i), t.title) &&
      f[3] == Field(Key("i", i), IntToString(t.when)) &&
      f[4] == Field(Key("o", i), "P") &&
      f[5] == Field(Key("l", i), IntToString(t.duration)) &&
      f[6] == Field(Key("n", i), "") &&
      f[7] == Field(Key("m", i), "") &&
      f[8] == Field(Key("r", i), "")
  {
  }

  /** Layout of the request: `1 + 9n` fields, the session id first, then for
      each track `i`, in batch order, exactly that track's nine fields keyed
      by `[i]` (spelled out by `TrackFieldsContents`). */
  lemma EncodeRequestLayout(sessionId: string, ts: seq<Track>)
    ensures var r := EncodeRequest(sessionId, ts);
      |r| == 1 + 9 * |ts| && r[0] == Field("s", sessionId) &&
      forall i :: 0 <= i < |ts| ==> r[1 + 9 * i .. 10 + 9 * i] == TrackFields(ts[i], i)
  {
    var r := EncodeRequest(sessionId, ts);
    forall i | 0 <= i < |ts|
      ensures r[1 + 9 * i .. 10 + 9 * i] == TrackFields(ts[i], i)
    {
      EncodeTracksAt(ts, i);
      SliceOfAppend([Field("s", sessionId)], EncodeTracks(ts), 1 + 9 * i, 10 + 9 * i);
    }
  }

  /** Reads one track back from its nine fields, checking every key and the
      fixed values; `None` when anything is out of place. */
  function DecodeTrack(f: seq<Field>, i: nat): Option<Track>
    requires |f| == 9
  {
    var when := ParseInt(f[3].value);
    var duration := ParseInt(f[5].value);
    if f[0].name == Key("a", i) && f[1].name == Key("b", i) && f[2].name == Key("t", i)
       && f[3].name == Key("i", i) && f[4] == Field(Key("o", i), "P")
       && f[5].name == Key("l", i) && f[6] == Field(Key("n", i), "")
       && f[7] == Field(Key("m", i), "") && f[8] == Field(Key("r", i), "")
       && when.Some? && duration.Some?
    then Some(Track(f[0].value, f[1].value, f[2].value, when.value, duration.value))
    else None
  }

  function DecodeTracks(fs: seq<Field>): Option<seq<Track>>
    requires |fs| % 9 == 0
    decreases |fs|
  {
    if fs == [] then Some([])
    else
      match DecodeTracks(fs[..|fs| - 9])
      case None => None
      case Some(init) =>
        match DecodeTrack(fs[|fs| - 9..], |fs| / 9 - 1)
        case None => None
        case Some(t) => Some(init + [t])
  }

  /** What a server reads from a request body: the session id and the batch. */
  function DecodeRequest(fs: seq<Field>): Option<(string, seq<Track>)> {
    if |fs| >= 1 && fs[0].name == "s" && (|fs| - 1) % 9 == 0 then
      match DecodeTracks(fs[1..])
      case None => None
      case Some(ts) => Some((fs[0].value, ts))
    else None
  }

  lemma DecodeTrackFields(t: Track, i: nat)
    ensures DecodeTrack(TrackFields(t, i), i) == Some(t)
  {
    IntToStringRoundTrip(t.when);
    IntToStringRoundTrip(t.duration);
  }

  lemma NineFold(m: int, n: nat)
    requires m == 9 * n
    ensures m % 9 == 0 && m / 9 == n
  {
  }

  lemma DecodeTracksSnoc(a: seq<Field>, b: seq<Field>, init: seq<Track>, t: Track)
    requires |a| % 9 == 0 && |b| == 9
    requires DecodeTracks(a) == Some(init) && DecodeTrack(b, |a| / 9) == Some(t)
    ensures |a + b| % 9 == 0 && DecodeTracks(a + b) == Some(init + [t])
  {
    var fs := a + b;
    assert fs[..|fs| - 9] == a;
    assert fs[|fs| - 9..] == b;
    NineFold(|a|, |a| / 9);
    NineFold(|fs|, |a| / 9 + 1);
  }

  lemma {:induction false} DecodeEncodeTracks(ts: seq<Track>)
    ensures |EncodeTracks(ts)| == 9 * |ts|
    ensures DecodeTracks(EncodeTracks(ts)) == Some(ts)
    decreases |ts|
  {
    if ts != [] {
      var init := ts[..|ts| - 1];
      var last := ts[|ts| - 1];
      assert init + [last] == ts;
      DecodeEncodeTracks(init);
      DecodeTrackFields(last, |init|);
      NineFold(|EncodeTracks(init)|, |init|);
      DecodeTracksSnoc(EncodeTracks(init), TrackFields(last, |init|), init, last);
    }
  }

  /** Round trip: the request body carries the session id and exactly the
      batch, in order and with every field intact (empty strings included). */
  lemma DecodeEncodeRequest(sessionId: string, ts: seq<Track>)
    ensures DecodeRequest(EncodeRequest(sessionId, ts)) == Some((sessionId, ts))
  {
    var tail := EncodeTracks(ts);
    var fs := EncodeRequest(sessionId, ts);
    NineFold(|tail|, |ts|);
    assert |fs| - 1 == |tail| && (|fs| - 1) % 9 == 0;
    assert fs[1..] == tail;
    DecodeEncodeTracks(ts);
  }

  /** Distinct batches (or sessions) never produce the same request body. */
  lemma EncodeRequestInjective(s1: string, ts1: seq<Track>, s2: string, ts2: seq<Track>)
    requires EncodeRequest(s1, ts1) == EncodeRequest(s2, ts2)
    ensures s1 == s2 && ts1 == ts2
  {
    DecodeEncodeRequest(s1, ts1);
    DecodeEncodeRequest(s2, ts2);
  }

  /** How a submission reply is read. `ReasonOutOfRange` is the reply that
      starts with "FAILED" but whose first line is shorter than seven
      characters: taking the reason after "FAILED " then fails with an
      index-out-of-range error instead of yielding a reason. */
  datatype Outcome =
    | Accepted
    | BadSession
    | Failed(reason: string)
    | ReasonOutOfRange(firstLine: string)
    | Weird(response: string)

  /** Prefix dispatch on the whole reply, in the order OK, BADSESSION, FAILED;
      the failure reason is the first line from its eighth character on. A
      reason is one line of the reply, found right after its seventh
      character; the only first line too short to hold one is "FAILED". */
  function Classify(response: string): (o: Outcome)
    ensures o.Failed? ==>
      '\n' !in o.reason && 7 + |o.reason| <= |response| && response[7..7 + |o.reason|] == o.reason
    ensures o.ReasonOutOfRange? ==> o.firstLine == "FAILED"
    ensures o.Weird? ==> o.response == response
  {
    PrefixInFirstLine(response, "FAILED");
    if StartsWith(response, "OK") then Accepted
    else if StartsWith(response, "BADSESSION") then BadSession
    else if StartsWith(response, "FAILED") then
      var line := FirstLine(response);
      if |line| >= 7 then Failed(line[7..]) else ReasonOutOfRange(line)
    else Weird(response)
  }

  /** The three prefixes exclude one another, so each outcome holds exactly
      when its own prefix is present, whatever the order of the tests. */
  lemma ClassifyByPrefix(response: string)
    ensures Classify(response) == Accepted <==> StartsWith(response, "OK")
    ensures Classify(response) == BadSession <==> StartsWith(response, "BADSESSION")
    ensures Classify(response).Failed? <==>
      StartsWith(response, "FAILED") && |FirstLine(response)| >= 7
    ensures Classify(response).Failed? ==> Classify(response).reason == FirstLine(response)[7..]
    ensures Classify(response).ReasonOutOfRange? <==>
      StartsWith(response, "FAILED") && |FirstLine(response)| < 7
    ensures Classify(response) == Weird(response) <==>
      !StartsWith(response, "OK") && !StartsWith(response, "BADSESSION") && !StartsWith(response, "FAILED")
  {
    PrefixesExclusive(response);
  }

  lemma PrefixesExclusive(response: string)
    ensures StartsWith(response, "OK") ==> !StartsWith(response, "BADSESSION") && !StartsWith(response, "FAILED")
    ensures StartsWith(response, "BADSESSION") ==> !StartsWith(response, "FAILED")
  {
    if StartsWith(response, "OK") {
      assert response[0] == 'O';
    } else if StartsWith(response, "BADSESSION") {
      assert response[0] == 'B';
    }
  }

  lemma PrefixInFirstLine(s: string, p: string)
    requires '\n' !in p
    ensures StartsWith(FirstLine(s), p) <==> StartsWith(s, p)
  {
    var l := FirstLine(s);
    if StartsWith(l, p) {
      assert s[..|p|] == l[..|p|];
    }
  }

  /** Only the first line decides the kind of a reply: the reply and its
      first line alone are classified alike, except that a reply matching
      no prefix keeps the whole text for diagnostics. */
  lemma ClassifyFirstLineOnly(response: string)
    ensures Classify(response).Weird? <==> Classify(FirstLine(response)).Weird?
    ensures !Classify(response).Weird? ==> Classify(FirstLine(response)) == Classify(response)
  {
    var l := FirstLine(response);
    PrefixInFirstLine(response, "OK");
    PrefixInFirstLine(response, "BADSESSION");
    PrefixInFirstLine(response, "FAILED");
    FirstLineOf(l, []);
    assert l + [] == l;
  }

  /** A reply "FAILED <reason>" (possibly followed by more lines) yields
      exactly that reason. */
  lemma ClassifyFailedReason(reason: string, rest: string)
    requires '\n' !in reason
    requires rest == [] || rest[0] == '\n'
    ensures Classify("FAILED " + reason + rest) == Failed(reason)
  {
    var response := "FAILED " + reason + rest;
    assert response == ("FAILED " + reason) + rest;
    FirstLineOf("FAILED " + reason, rest);
    assert response[..6] == "FAILED";
  }

  /** A bare "FAILED" reply, with or without further lines, has no reason to
      take: it is the out-of-range outcome, not an empty reason. */
  lemma ClassifyBareFailed(rest: string)
    requires rest == [] || rest[0] == '\n'
    ensures Classify("FAILED" + rest) == ReasonOutOfRange("FAILED")
  {
    FirstLineOf("FAILED", rest);
    assert ("FAILED" + rest)[..6] == "FAILED";
  }
}
