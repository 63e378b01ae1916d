# A Simple Last.fm Scrobbler: batch submission, in Dafny

This project models the scrobbler task of A Simple Last.fm Scrobbler
(`Scrobbler.java`, release 1.1). The task submits queued track plays to
Last.fm with the Audioscrobbler 1.2 "submission" request. One run of the task
(`doRun`) does the following:

- It fetches at most `MAX_SCROBBLE_LIMIT` (50) pending scrobbles from the
  local database. With none, it stops there.
- It posts them as one form: the session id, then nine fields per track.
- It reads the reply by its prefix. `OK` deletes the batch from the database
  and records the success in the settings. `BADSESSION` asks the networker
  for a new handshake and a new scrobbler run. `FAILED <reason>` and any
  other reply are temporary failures.

Modules, one per component:

- `Text` (`text.dfy`): Java's decimal rendering of integers and a parser
  that reverses it, `startsWith`, and the first line of a reply.
- `Protocol` (`protocol.dfy`): the `Track` and `HandshakeResult` values, the
  request fields, and a reader that recovers the session id and batch from
  them. It also holds `Classify`, the prefix dispatch on the reply.
- `Collaborators` (`collaborators.dfy`): the state outside the task. The
  database queue, the status settings, the networker's scheduled tasks and
  the HTTP client's sent requests are each a class with the fields the task
  reads or writes.
- `Service` (`service.dfy`): the `Scrobbler` class, with `ScrobbleCommit`
  (build, post, dispatch, delete loop) and `DoRun` (the controller).

Three behaviours of the code are easy to misread; the model keeps them as
written:

- A reply that starts with `FAILED` but whose first line is shorter than
  seven characters (`"FAILED"`, `"FAILED\nx"`) does not give an empty
  reason. Taking the reason after `"FAILED "` raises an index-out-of-range
  exception there. That exception is unchecked, so `doRun` does not catch
  it. The model gives this case its own outcomes: `ReasonOutOfRange` from
  `Classify`, `IndexOutOfRange` from `ScrobbleCommit`, and `Aborted` from
  `DoRun`. In that case nothing is deleted, no task is launched and the
  settings are unchanged.
- The prefixes are tested on the whole reply, not on its first line. The
  reason is still taken from the first line. `ClassifyFirstLineOnly` proves
  that this is the same as a first-line-only dispatch, except that a reply
  matching no prefix keeps the whole text in its message.
- A reply matching no prefix is a temporary failure. Its message is
  "Scrobble failed weirdly: " followed by the reply. `Classify` keeps it
  apart as `Weird`. `CommitOutcome` merges it into `TemporaryFailure`, as
  the code does.

## Model

| member | source | states |
|---|---|---|
| `Text.IntToString` | tags/1.1/a_simple_lastfm_scrobbler/src/com/adam/aslfms/service/Scrobbler.java:147-151 | `"" + n` is never empty, starts with a minus sign exactly when the value is negative, and is otherwise decimal digits |
| `Text.IntToStringRoundTrip` | tags/1.1/a_simple_lastfm_scrobbler/src/com/adam/aslfms/service/Scrobbler.java:147-151 | the decimal text sent for a start time or duration reads back as exactly that integer, negative values included |
| `Text.IntToStringInjective` | tags/1.1/a_simple_lastfm_scrobbler/src/com/adam/aslfms/service/Scrobbler.java:140 | distinct track positions get distinct `[i]` keys, because distinct integers render differently |
| `Text.FirstLine` | tags/1.1/a_simple_lastfm_scrobbler/src/com/adam/aslfms/service/Scrobbler.java:161 | `lines[0]` is a prefix of the reply with no newline in it, and it ends where the reply ends or at the reply's first newline |
| `Text.FirstLineOf` | tags/1.1/a_simple_lastfm_scrobbler/src/com/adam/aslfms/service/Scrobbler.java:161 | a line followed by nothing or by a newline and more text has that line as its first line |
| `Protocol.TrackFields` | tags/1.1/a_simple_lastfm_scrobbler/src/com/adam/aslfms/service/Scrobbler.java:139-154 | each track gives exactly nine fields |
| `Protocol.EncodeTracks` | tags/1.1/a_simple_lastfm_scrobbler/src/com/adam/aslfms/service/Scrobbler.java:138-155 | the tracks of a batch give nine fields each, `9n` in all |
| `Protocol.EncodeRequest` | tags/1.1/a_simple_lastfm_scrobbler/src/com/adam/aslfms/service/Scrobbler.java:135-155 | the request has `1 + 9n` fields and its first field is `("s", sessionId)` |
| `Protocol.EncodeTracksStep` | tags/1.1/a_simple_lastfm_scrobbler/src/com/adam/aslfms/service/Scrobbler.java:138-155 | one more loop turn appends the nine fields of track `i` to those of the tracks before it |
| `Protocol.BuildRequest` | tags/1.1/a_simple_lastfm_scrobbler/src/com/adam/aslfms/service/Scrobbler.java:135-155 | the loop that starts with `("s", sessionId)` and appends nine fields per track builds exactly `EncodeRequest` of the session id and the batch |
| `Protocol.EncodeRequestLayout` | tags/1.1/a_simple_lastfm_scrobbler/src/com/adam/aslfms/service/Scrobbler.java:135-155 | the request has `1 + 9n` fields and `("s", sessionId)` comes first; fields `1+9i .. 9+9i` are exactly the fields of track `i`, in batch order |
| `Protocol.TrackFieldsContents` | tags/1.1/a_simple_lastfm_scrobbler/src/com/adam/aslfms/service/Scrobbler.java:139-154 | track `i` gives the fields `a[i] b[i] t[i] i[i] o[i] l[i] n[i] m[i] r[i]` in that order; they hold its artist, album, title, start time and duration unchanged, `o[i]` is always "P", and `n[i]`, `m[i]`, `r[i]` are always empty. This reads the field list back; its independent partner is `DecodeEncodeRequest` |
| `Protocol.EncodeTracksAt` | tags/1.1/a_simple_lastfm_scrobbler/src/com/adam/aslfms/service/Scrobbler.java:138-155 | the track fields of a batch are nine per track, and track `i`'s nine fields, keyed `[i]`, start at offset `9i` |
| `Protocol.AddTrack` | tags/1.1/a_simple_lastfm_scrobbler/src/com/adam/aslfms/service/Scrobbler.java:139-154 | the nine `data.add` calls of one loop turn append exactly the fields of track `i` |
| `Protocol.DecodeEncodeRequest` | tags/1.1/a_simple_lastfm_scrobbler/src/com/adam/aslfms/service/Scrobbler.java:135-155 | round trip: reading the request back gives the session id and exactly the batch, in order, with no field changed (empty album or title included) |
| `Protocol.EncodeRequestInjective` | tags/1.1/a_simple_lastfm_scrobbler/src/com/adam/aslfms/service/Scrobbler.java:135-155 | two different sessions or batches never give the same request |
| `Protocol.Classify` | tags/1.1/a_simple_lastfm_scrobbler/src/com/adam/aslfms/service/Scrobbler.java:161-180 | a `FAILED` reason is one line of the reply, read from its eighth character on; the only first line too short to hold a reason is exactly `FAILED`; a reply matching no prefix is kept whole |
| `Protocol.ClassifyByPrefix` | tags/1.1/a_simple_lastfm_scrobbler/src/com/adam/aslfms/service/Scrobbler.java:161-180 | each outcome holds exactly when its prefix is present: `OK` gives Accepted, `BADSESSION` gives BadSession, `FAILED` gives Failed with reason `lines[0][7..]` when `lines[0]` has at least 7 characters and ReasonOutOfRange otherwise, and a reply with none of the prefixes is Weird and carries the whole reply; the prefixes exclude one another |
| `Protocol.ClassifyFirstLineOnly` | tags/1.1/a_simple_lastfm_scrobbler/src/com/adam/aslfms/service/Scrobbler.java:161-180 | only the first line decides the outcome: a reply and its first line are classified alike, except that a Weird reply keeps all of its text |
| `Protocol.ClassifyFailedReason` | tags/1.1/a_simple_lastfm_scrobbler/src/com/adam/aslfms/service/Scrobbler.java:173-176 | `"FAILED " + reason`, with or without more lines after it, fails with exactly that reason |
| `Protocol.ClassifyBareFailed` | tags/1.1/a_simple_lastfm_scrobbler/src/com/adam/aslfms/service/Scrobbler.java:173-174 | a bare `"FAILED"` line, with or without more lines after it, is the out-of-range case and not an empty reason |
| `Collaborators.Fetch` | tags/1.1/a_simple_lastfm_scrobbler/src/com/adam/aslfms/service/Scrobbler.java:73 | the batch is the first `min(limit, queued)` rows of the queue |
| `Collaborators.ScrobblesDb.FetchScrobbles` | tags/1.1/a_simple_lastfm_scrobbler/src/com/adam/aslfms/service/Scrobbler.java:73 | the fetched array is a prefix of the queue with at most `limit` rows; when it is shorter than `limit`, it is the whole queue |
| `Collaborators.ScrobblesDb.DeleteScrobble` | tags/1.1/a_simple_lastfm_scrobbler/src/com/adam/aslfms/service/Scrobbler.java:167 | deleting by value removes every row equal to the track and records the call |
| `Collaborators.Keep` | tags/1.1/a_simple_lastfm_scrobbler/src/com/adam/aslfms/service/Scrobbler.java:165-168 | deleting a batch never adds rows: the queue can only get shorter |
| `Collaborators.KeepDropsPrefix` | tags/1.1/a_simple_lastfm_scrobbler/src/com/adam/aslfms/service/Scrobbler.java:165-168 | when the first `k` queued rows all belong to the batch, deleting the batch removes all of them |
| `Collaborators.KeepMembers` | tags/1.1/a_simple_lastfm_scrobbler/src/com/adam/aslfms/service/Scrobbler.java:165-168 | after the batch is deleted, a row is still queued exactly when it was queued before and equals no track of the batch |
| `Collaborators.KeepMultiplicity` | tags/1.1/a_simple_lastfm_scrobbler/src/com/adam/aslfms/service/Scrobbler.java:165-168 | no row outside the batch is lost or duplicated, since each keeps its multiplicity, and no row equal to a batch track remains |
| `Collaborators.KeepSnoc` | tags/1.1/a_simple_lastfm_scrobbler/src/com/adam/aslfms/service/Scrobbler.java:166-168 | deleting one more track after a batch is the same as deleting the batch with that track appended, which is the delete loop's step |
| `Collaborators.Networker.LaunchHandshaker` | tags/1.1/a_simple_lastfm_scrobbler/src/com/adam/aslfms/service/Scrobbler.java:108 | asking for a handshake appends exactly one handshaker task with its flag |
| `Collaborators.Networker.LaunchScrobbler` | tags/1.1/a_simple_lastfm_scrobbler/src/com/adam/aslfms/service/Scrobbler.java:120 | asking for a scrobbler run appends exactly one scrobbler task |
| `Collaborators.HttpClient.Execute` | tags/1.1/a_simple_lastfm_scrobbler/src/com/adam/aslfms/service/Scrobbler.java:157-160 | one POST is recorded per exchange, and the reply is the server's answer or the transport error |
| `Service.CommitOutcome` | tags/1.1/a_simple_lastfm_scrobbler/src/com/adam/aslfms/service/Scrobbler.java:157-185 | only an `OK` body commits; the abort happens only when the first line is exactly `FAILED`; a temporary failure's message starts with `Scrobbler: ` for a transport exception and with `Scrobble failed` for a server reply |
| `Service.CommitOutcomeByReply` | tags/1.1/a_simple_lastfm_scrobbler/src/com/adam/aslfms/service/Scrobbler.java:161-185 | only a body that starts with `OK` commits, and only one that starts with `BADSESSION` raises the bad-session exception. A `FAILED` body with a first line shorter than 7 characters aborts. Otherwise a `FAILED` body fails temporarily with "Scrobble failed: " and the reason. Every other body and every transport exception is a temporary failure |
| `Service.ScrobbleInfo` | tags/1.1/a_simple_lastfm_scrobbler/src/com/adam/aslfms/service/Scrobbler.java:99-102 | the last-scrobble line is the title of the batch's last track in double quotes, a space, the "by" word, a space, and that track's artist |
| `Service.DrainedUnlessFull` | tags/1.1/a_simple_lastfm_scrobbler/src/com/adam/aslfms/service/Scrobbler.java:88-92 | when the batch was not full, committing it empties the queue, so a relaunch is asked for only when tracks may remain (for the run alone; see Left out) |
| `Service.CommitShrinksQueue` | tags/1.1/a_simple_lastfm_scrobbler/src/com/adam/aslfms/service/Scrobbler.java:60-73 | a batch holds at most `MAX_SCROBBLE_LIMIT` (50) tracks, and committing it removes at least as many rows as it holds, so a non-empty queue always shrinks |
| `Service.Scrobbler.constructor` | tags/1.1/a_simple_lastfm_scrobbler/src/com/adam/aslfms/service/Scrobbler.java:62-66 | the scrobbler holds its database, settings, networker and HTTP client |
| `Service.Scrobbler.RelaunchThis` | tags/1.1/a_simple_lastfm_scrobbler/src/com/adam/aslfms/service/Scrobbler.java:118-121 | a relaunch appends exactly one scrobbler task |
| `Service.Scrobbler.RecordSuccess` | tags/1.1/a_simple_lastfm_scrobbler/src/com/adam/aslfms/service/Scrobbler.java:95-103 | after a commit the settings hold success, the given time, the total raised by the batch length and the info line of the batch's last track, and one status notification is sent |
| `Service.Scrobbler.DeleteBatch` | tags/1.1/a_simple_lastfm_scrobbler/src/com/adam/aslfms/service/Scrobbler.java:165-168 | the loop deletes the batch's tracks one by one in array order; the queue afterwards is `Keep` of the old queue and the batch |
| `Service.Scrobbler.ScrobbleCommit` | tags/1.1/a_simple_lastfm_scrobbler/src/com/adam/aslfms/service/Scrobbler.java:129-189 | exactly one POST of `EncodeRequest(sessionId, batch)` goes to the handshake's URI, and the result is `CommitOutcome` of the reply. Only on Committed are the batch's tracks deleted, each exactly once and in array order. Every other outcome leaves the database untouched |
| `Service.Scrobbler.DoRun` | tags/1.1/a_simple_lastfm_scrobbler/src/com/adam/aslfms/service/Scrobbler.java:68-116 | with an empty fetch the run returns true and sends, deletes, launches and changes nothing. Otherwise it posts the batch. On OK it deletes the batch, relaunches exactly when the batch had 50 tracks, sets success, the time and the count plus the batch length, and writes the info of the last track. On BADSESSION it launches the handshaker (false), then the scrobbler, and returns true with the database and settings unchanged. On a temporary failure it returns false with nothing else changed. On the out-of-range case it aborts with nothing else changed |

## Left out

- The HTTP transport is not modelled: the client, the POST, the response
  handler and the connection-manager shutdown. The server's answer is an
  input: a body, or the message of a protocol or I/O exception. Both
  exception kinds give the same "Scrobbler: " message.
- The form-urlencoding and UTF-8 encoding of the body are library behaviour.
  The model keeps only the ordered list of name/value pairs.
- A response with no body (a null string, which would make the split fail)
  and runtime exceptions raised inside the HTTP library are not modelled.
- Logging is not modelled. The localised word "by" is a parameter of
  `DoRun`.
- The clock read for the last-scrobble time is the `now` parameter of
  `DoRun`.
- Scheduling is not modelled. `relaunchThis` and `launchHandshaker` become
  entries in the networker's list of requested tasks. `notifyStatusUpdate`
  becomes a counter.
- DrainedUnlessFull: it holds for the run alone. It assumes nothing else
  writes to the queue between the fetch and the deletes, and the code takes
  no lock. In the program, a play queued while the POST is in flight stays
  queued, and no relaunch is asked for when the batch was not full.
- CommitShrinksQueue: it holds for the run alone, with the same assumption
  of no other writer to the queue during the run.
- DoRun: the queue is a field that only the run changes, so concurrent
  inserts of new plays by other components are not modelled.
- The database is not part of this model. The queue is a sequence kept in
  the order the fetch returns rows (oldest first). Deletion by value removes
  every row equal to the track.
- `Track` holds only the five attributes the submission reads: artist,
  album, title (`getTrack`), start time and duration. The `Track` class
  itself is not part of this model.
- `AppSettings` is not part of this model. Its scrobble counter is an
  unbounded integer, so Java `int` wrap-around is not modelled.
- `ScrobbleResult` is never constructed, so it has no behaviour to model.
- `StatusInfoDialog.java` (user interface) and `Util.java` (clock, date
  formatting, dialogs, package lookup) are not part of this model.
