/** The scrobbler task: one submission attempt that fetches a batch of
    pending scrobbles, posts it, reads the reply, and then commits the batch,
    asks for a new handshake, or gives up until the next attempt. */
module Service {

  import opened Text
  import opened Protocol
  import opened Collaborators

  /** The largest number of scrobbles sent in one submission. */
  const MAX_SCROBBLE_LIMIT: nat := 50

  /** Prefix of the messages built from transport exceptions. */
  const TAG: string := "Scrobbler"

  /** How a submission ends: the batch was accepted, or one of the two
      checked exceptions with its message, or the unchecked index-out-of-range
      error raised while taking the reason of a too-short "FAILED" line. */
  datatype CommitResult =
    | Committed
    | BadSessionFailure(message: string)
    | TemporaryFailure(message: string)
    | IndexOutOfRange

  /** What one attempt yields: the boolean the task returns, or `Aborted`
      when an unchecked exception escapes it. */
  datatype RunResult = Returned(value: bool) | Aborted

  /** The result of a submission, given what the HTTP exchange produced.
      Only an "OK" body commits; the abort happens only on a bare "FAILED"
      first line; every temporary failure's message names its origin, the
      transport (the task's tag) or the server ("Scrobble failed"). */
  function CommitOutcome(reply: Reply): (r: CommitResult)
    ensures r == Committed ==> reply.Body? && StartsWith(reply.text, "OK")
    ensures r == IndexOutOfRange ==> reply.Body? && FirstLine(reply.text) == "FAILED"
    ensures r.TemporaryFailure? ==>
      (reply.TransportError? && StartsWith(r.message, TAG + ": ")) ||
      (reply.Body? && StartsWith(r.message, "Scrobble failed"))
  {
    match reply
    case TransportError(message) => TemporaryFailure(TAG + ": " + message)
    case Body(text) =>
      match Classify(text)
      case Accepted => Committed
      case BadSession => BadSessionFailure("Scrobble failed because of badsession")
      case Failed(reason) => TemporaryFailure("Scrobble failed: " + reason)
      case ReasonOutOfRange(_) => IndexOutOfRange
      case Weird(response) => TemporaryFailure("Scrobble failed weirdly: " + response)
  }

  /** The submission outcomes by reply: only a body starting with "OK"
      commits, only one starting with "BADSESSION" asks for a new session, a
      body starting with "FAILED" either fails temporarily with the reason of
      its first line or, when that line is too short, aborts; every other
      body and every transport error is a temporary failure. */
  lemma CommitOutcomeByReply(reply: Reply)
    ensures CommitOutcome(reply) == Committed <==> reply.Body? && StartsWith(reply.text, "OK")
    ensures CommitOutcome(reply).BadSessionFailure? <==>
      reply.Body? && StartsWith(reply.text, "BADSESSION")
    ensures CommitOutcome(reply) == IndexOutOfRange <==>
      reply.Body? && StartsWith(reply.text, "FAILED") && |FirstLine(reply.text)| < 7
    ensures CommitOutcome(reply).TemporaryFailure? <==>
      reply.TransportError? ||
      (!StartsWith(reply.text, "OK") && !StartsWith(reply.text, "BADSESSION") &&
       (StartsWith(reply.text, "FAILED") ==> |FirstLine(reply.text)| >= 7))
    ensures reply.Body? && StartsWith(reply.text, "FAILED") && |FirstLine(reply.text)| >= 7 ==>
      CommitOutcome(reply) == TemporaryFailure("Scrobble failed: " + FirstLine(reply.text)[7..])
  {
    if reply.Body? {
      ClassifyByPrefix(reply.text);
    }
  }

  /** The status line shown for the last scrobbled track: its title in
      quotes, the localised word "by", and its artist. */
  function ScrobbleInfo(track: Track, byWord: string): (info: string)
    ensures |info| == |track.title| + |byWord| + |track.artist| + 4
    ensures info[0] == '"' && info[1..|track.title| + 1] == track.title
    ensures info[|track.title| + 1 .. |track.title| + 3 + |byWord|] == "\" " + byWord
    ensures info[|info| - |track.artist| - 1] == ' '
    ensures info[|info| - |track.artist|..] == track.artist
  {
    "\"" + track.title + "\" " + byWord + " " + track.artist
  }

  /** When the batch was not full, the queue held no more than the batch,
      so committing it leaves the queue empty. This holds of the run alone:
      it assumes nothing else writes to the queue between the fetch and the
      deletes. */
  lemma DrainedUnlessFull(q: seq<Track>)
    ensures var batch := Fetch(q, MAX_SCROBBLE_LIMIT);
      |batch| < MAX_SCROBBLE_LIMIT ==> Keep(q, batch) == []
  {
    var batch := Fetch(q, MAX_SCROBBLE_LIMIT);
    if |batch| < MAX_SCROBBLE_LIMIT && Keep(q, batch) != [] {
      var x := Keep(q, batch)[0];
      KeepMembers(q, batch, x);
    }
  }

  /** Every committed run makes progress: deleting the fetched batch drops
      at least as many rows as the batch holds (at most MAX_SCROBBLE_LIMIT),
      so a non-empty queue always shrinks. Like `DrainedUnlessFull`, this is
      about the run alone, with no other writer to the queue. */
  lemma CommitShrinksQueue(q: seq<Track>)
    ensures var batch := Fetch(q, MAX_SCROBBLE_LIMIT);
      |batch| <= MAX_SCROBBLE_LIMIT &&
      |Keep(q, batch)| <= |q| - |batch| &&
      (q != [] ==> |Keep(q, batch)| < |q|)
  {
    var batch := Fetch(q, MAX_SCROBBLE_LIMIT);
    KeepDropsPrefix(q, batch, |batch|);
  }

  class Scrobbler {
    const db: ScrobblesDb
    const settings: AppSettings
    const net: Networker
    const http: HttpClient
    /** Number of status-update notifications sent. */
    var statusUpdates: nat

    constructor (db: ScrobblesDb, settings: AppSettings, net: Networker, http: HttpClient)
      ensures this.db == db && this.settings == settings && this.net == net && this.http == http
      ensures statusUpdates == 0
    {
      this.db := db;
      this.settings := settings;
      this.net := net;
      this.http := http;
      statusUpdates := 0;
    }

    /** Asks the networker to run the scrobbler again. */
    method RelaunchThis()
      modifies net
      ensures net.launched == old(net.launched) + [ScrobblerTask]
    {
      net.LaunchScrobbler();
    }

    /** Deletes the tracks of a committed batch one by one, in array order. */
    method DeleteBatch(tracks: seq<Track>)
      modifies db
      ensures db.rows == Keep(old(db.rows), tracks)
      ensures db.deleted == old(db.deleted) + tracks
    {
      KeepNothing(db.rows);
      for i := 0 to |tracks|
        invariant db.rows == Keep(old(db.rows), tracks[..i])
        invariant db.deleted == old(db.deleted) + tracks[..i]
      {
        KeepSnoc(old(db.rows), tracks[..i], tracks[i]);
        db.DeleteScrobble(tracks[i]);
        assert tracks[..i + 1] == tracks[..i] + [tracks[i]];
      }
      assert tracks[..|tracks|] == tracks;
    }

    /** Posts the batch and reads the reply. The batch is deleted from the
        database, track by track in batch order, only when the reply starts
        with "OK"; every other outcome leaves the database as it was. */
    method ScrobbleCommit(hInfo: HandshakeResult, tracks: seq<Track>, answer: Reply)
      returns (result: CommitResult)
      modifies db, http
      ensures http.posts == old(http.posts) + [Post(hInfo.scrobbleUri, EncodeRequest(hInfo.sessionId, tracks))]
      ensures result == CommitOutcome(answer)
      ensures result == Committed ==>
        db.rows == Keep(old(db.rows), tracks) && db.deleted == old(db.deleted) + tracks
      ensures result != Committed ==> unchanged(db)
    {
      var data := BuildRequest(hInfo, tracks);
      var reply := http.Execute(Post(hInfo.scrobbleUri, data), answer);
      match reply
      case TransportError(message) =>
        result := TemporaryFailure(TAG + ": " + message);
      case Body(response) =>
        match Classify(response)
        case Accepted =>
          DeleteBatch(tracks);
          result := Committed;
        case BadSession =>
          result := BadSessionFailure("Scrobble failed because of badsession");
        case Failed(reason) =>
          result := TemporaryFailure("Scrobble failed: " + reason);
        case ReasonOutOfRange(_) =>
          result := IndexOutOfRange;
        case Weird(_) =>
          result := TemporaryFailure("Scrobble failed weirdly: " + response);
    }

    /** Records a successful submission of `tracks`: success, the time, the
        total raised by the batch length, the info line of the batch's last
        track, and one status notification. */
    method RecordSuccess(tracks: seq<Track>, now: int, byWord: string)
      requires tracks != []
      modifies settings, this
      ensures settings.lastScrobbleSuccess && settings.lastScrobbleTime == now
      ensures settings.numberOfScrobbles == old(settings.numberOfScrobbles) + |tracks|
      ensures settings.lastScrobbleInfo == ScrobbleInfo(tracks[|tracks| - 1], byWord)
      ensures statusUpdates == old(statusUpdates) + 1
    {
      settings.lastScrobbleSuccess := true;
      settings.lastScrobbleTime := now;
      settings.numberOfScrobbles := settings.numberOfScrobbles + |tracks|;
      var track := tracks[|tracks| - 1];
      settings.lastScrobbleInfo := ScrobbleInfo(track, byWord);
      statusUpdates := statusUpdates + 1;
    }

    /** One scrobbler run. With nothing queued it returns true and touches
        nothing. Otherwise it posts the oldest batch of at most
        MAX_SCROBBLE_LIMIT scrobbles and then:
        - on "OK": deletes the batch, relaunches itself exactly when the batch
          was full, records success, the time, the new total and the last
          track, notifies the status listeners and returns true;
        - on "BADSESSION": asks for a new handshake, relaunches itself and
          returns true, deleting nothing and leaving the status alone;
        - on any temporary failure: returns false and changes nothing else;
        - on a "FAILED" line too short to hold a reason: aborts, changing
          nothing else. */
    method DoRun(hInfo: HandshakeResult, answer: Reply, now: int, byWord: string) returns (r: RunResult)
      modifies db, settings, net, http, this
      ensures var batch := Fetch(old(db.rows), MAX_SCROBBLE_LIMIT);
        batch == [] ==> r == Returned(true) && unchanged(db, settings, net, http, this)
      ensures var batch := Fetch(old(db.rows), MAX_SCROBBLE_LIMIT);
        batch != [] ==>
          http.posts == old(http.posts) + [Post(hInfo.scrobbleUri, EncodeRequest(hInfo.sessionId, batch))] &&
          match CommitOutcome(answer)
          case Committed =>
            r == Returned(true) &&
            db.rows == Keep(old(db.rows), batch) &&
            db.deleted == old(db.deleted) + batch &&
            net.launched == old(net.launched) + (if |batch| == MAX_SCROBBLE_LIMIT then [ScrobblerTask] else []) &&
            settings.lastScrobbleSuccess &&
            settings.lastScrobbleTime == now &&
            settings.numberOfScrobbles == old(settings.numberOfScrobbles) + |batch| &&
            settings.lastScrobbleInfo == ScrobbleInfo(batch[|batch| - 1], byWord) &&
            statusUpdates == old(statusUpdates) + 1
          case BadSessionFailure(_) =>
            r == Returned(true) &&
            net.launched == old(net.launched) + [HandshakerTask(false), ScrobblerTask] &&
            unchanged(db, settings, this)
          case TemporaryFailure(_) =>
            r == Returned(false) && unchanged(db, settings, net, this)
          case IndexOutOfRange =>
            r == Aborted && unchanged(db, settings, net, this)
    {
      var tracks := db.FetchScrobbles(MAX_SCROBBLE_LIMIT);
      assert tracks == Fetch(old(db.rows), MAX_SCROBBLE_LIMIT);
      if |tracks| == 0 {
        r := Returned(true);
        return;
      }
      var result := ScrobbleCommit(hInfo, tracks, answer);
      match result
      case Committed =>
        if |tracks| == MAX_SCROBBLE_LIMIT {
          RelaunchThis();
        }
        RecordSuccess(tracks, now, byWord);
        r := Returned(true);
      case BadSessionFailure(_) =>
        net.LaunchHandshaker(false);
        RelaunchThis();
        r := Returned(true);
      case TemporaryFailure(_) =>
        r := Returned(false);
      case IndexOutOfRange =>
        r := Aborted;
    }
  }
}
