/** The state the scrobbler reads and changes outside itself: the queue of
    pending scrobbles in the local database, the persisted status settings,
    the networker that schedules submitter tasks, and the HTTP client. Each
    is reduced to the fields and calls the submission uses. */
module Collaborators {

  import opened Protocol

  /** The queue without every row equal to some track of `batch`, in queue order. */
  function Keep(q: seq<Track>, batch: seq<Track>): (r: seq<Track>)
    ensures |r| <= |q|
    decreases |q|
  {
    if q == [] then []
    else if q[0] in batch then Keep(q[1..], batch)
    else [q[0]] + Keep(q[1..], batch)
  }

  /** The first `limit` rows of the queue (all of them when fewer are queued). */
  function Fetch(q: seq<Track>, limit: nat): (batch: seq<Track>)
    ensures |batch| == if |q| < limit then |q| else limit
    ensures batch == q[..|batch|]
  {
    if |q| < limit then q else q[..limit]
  }

  /** A row survives the deletion of a batch exactly when it was queued and
      is not equal to any track of the batch. */
  lemma {:induction false} KeepMembers(q: seq<Track>, batch: seq<Track>, x: Track)
    ensures x in Keep(q, batch) <==> x in q && x !in batch
    decreases |q|
  {
    if q != [] {
      KeepMembers(q[1..], batch, x);
      assert q == [q[0]] + q[1..];
    }
  }

  /** No row outside the batch is lost or duplicated: each keeps its
      multiplicity, and rows equal to a batch track are all gone. */
  lemma {:induction false} KeepMultiplicity(q: seq<Track>, batch: seq<Track>, x: Track)
    ensures multiset(Keep(q, batch))[x] == if x in batch then 0 else multiset(q)[x]
    decreases |q|
  {
    if q != [] {
      KeepMultiplicity(q[1..], batch, x);
      assert q == [q[0]] + q[1..];
    }
  }

  /** Deleting an empty batch keeps every row. */
  lemma {:induction false} KeepNothing(q: seq<Track>)
    ensures Keep(q, []) == q
    decreases |q|
  {
    if q != [] {
      KeepNothing(q[1..]);
    }
  }

  /** When the first `k` rows of the queue all belong to the batch, deleting
      the batch drops them and leaves only what the rest of the queue keeps. */
  lemma {:induction false} KeepDropsPrefix(q: seq<Track>, batch: seq<Track>, k: nat)
    requires k <= |q|
    requires forall j :: 0 <= j < k ==> q[j] in batch
    ensures Keep(q, batch) == Keep(q[k..], batch)
    decreases k
  {
    if k > 0 {
      assert q[0] in batch;
      KeepDropsPrefix(q[1..], batch, k - 1);
      assert q[1..][k - 1..] == q[k..];
    }
  }

  /** Deleting the tracks of a batch one after the other removes exactly the
      rows equal to some track of the batch. */
  lemma {:induction false} KeepSnoc(q: seq<Track>, batch: seq<Track>, t: Track)
    ensures Keep(Keep(q, batch), [t]) == Keep(q, batch + [t])
    decreases |q|
  {
    if q != [] {
      KeepSnoc(q[1..], batch, t);
      assert q[0] in batch + [t] <==> q[0] in batch || q[0] == t;
    }
  }

  /** An outcome of the HTTP exchange: the response body, or the message of
      a protocol or I/O exception raised by the client. */
  datatype Reply = Body(text: string) | TransportError(message: string)

  /** One POST: the submission URI and the form fields of its body. */
  datatype Post = Post(uri: string, fields: seq<Field>)

  /** A submitter task the networker is asked to schedule. The handshaker's
      flag is passed through unchanged; its meaning lies in the networker,
      which is not part of this model. */
  datatype Launch = HandshakerTask(flag: bool) | ScrobblerTask

  /** The pending-scrobble table. `rows` is kept in the order the fetch
      returns them; `deleted` records every delete request, in call order. */
  class ScrobblesDb {
    var rows: seq<Track>
    var deleted: seq<Track>

    constructor (rows: seq<Track>)
      ensures this.rows == rows && deleted == []
    {
      this.rows := rows;
      deleted := [];
    }

    /** The oldest `limit` pending scrobbles, oldest first. */
    method FetchScrobbles(limit: nat) returns (tracks: seq<Track>)
      ensures tracks == Fetch(rows, limit)
      ensures |tracks| <= limit && |tracks| <= |rows|
      ensures tracks == rows[..|tracks|]
      ensures |tracks| < limit ==> tracks == rows
    {
      tracks := Fetch(rows, limit);
    }

    /** Deletes, by value, every row equal to `t`. */
    method DeleteScrobble(t: Track)
      modifies this
      ensures rows == Keep(old(rows), [t])
      ensures deleted == old(deleted) + [t]
    {
      rows := Keep(rows, [t]);
      deleted := deleted + [t];
    }
  }

  /** The persisted status shown to the user. */
  class AppSettings {
    var lastScrobbleSuccess: bool
    var lastScrobbleTime: int
    var numberOfScrobbles: int
    var lastScrobbleInfo: string

    constructor ()
      ensures !lastScrobbleSuccess && lastScrobbleTime == 0
      ensures numberOfScrobbles == 0 && lastScrobbleInfo == ""
    {
      lastScrobbleSuccess := false;
      lastScrobbleTime := 0;
      numberOfScrobbles := 0;
      lastScrobbleInfo := "";
    }
  }

  /** The scheduler of submitter tasks; `launched` records each request. */
  class Networker {
    var launched: seq<Launch>

    constructor ()
      ensures launched == []
    {
      launched := [];
    }

    method LaunchHandshaker(flag: bool)
      modifies this
      ensures launched == old(launched) + [HandshakerTask(flag)]
    {
      launched := launched + [HandshakerTask(flag)];
    }

    method LaunchScrobbler()
      modifies this
      ensures launched == old(launched) + [ScrobblerTask]
    {
      launched := launched + [ScrobblerTask];
    }
  }

  /** The HTTP client; `posts` records every request sent. The server's
      answer (or the transport's failure) is supplied by the caller. */
  class HttpClient {
    var posts: seq<Post>

    constructor ()
      ensures posts == []
    {
      posts := [];
    }

    method Execute(request: Post, answer: Reply) returns (reply: Reply)
      modifies this
      ensures posts == old(posts) + [request]
      ensures reply == answer
    {
      posts := posts + [request];
      reply := answer;
    }
  }
}
