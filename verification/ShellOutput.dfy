/** The shell daemon's per-session output queue: bounded storing and chunked draining. */
module ShellOutput {
  import opened Common
  import opened Utf8

  datatype Stream = Stdout | Stderr

  datatype OutputChunk = OutputChunk(stream: Stream, data: bytes)

  type Queue = seq<OutputChunk>

  // -------------------------------------------------------------------------
  // The queue as labelled bytes
  // -------------------------------------------------------------------------

  function Label(stream: Stream, data: bytes): seq<(Stream, byte)> {
    seq(|data|, i requires 0 <= i < |data| => (stream, data[i]))
  }

  function Flat(q: Queue): seq<(Stream, byte)> {
    if q == [] then [] else Label(q[0].stream, q[0].data) + Flat(q[1..])
  }

  predicate NoEmptyChunk(q: Queue) {
    forall i :: 0 <= i < |q| ==> q[i].data != []
  }

  lemma {:induction false} FlatAppend(a: Queue, b: Queue)
    ensures Flat(a + b) == Flat(a) + Flat(b)
  {
    if a == [] {
      assert a + b == b;
    } else {
      assert (a + b)[0] == a[0] && (a + b)[1..] == a[1..] + b;
      FlatAppend(a[1..], b);
    }
  }

  lemma LabelCut(stream: Stream, data: bytes, n: nat)
    requires n <= |data|
    ensures Label(stream, data) == Label(stream, data[..n]) + Label(stream, data[n..])
  {
  }

  // -------------------------------------------------------------------------
  // Storing
  // -------------------------------------------------------------------------

  function Min(a: nat, b: nat): nat {
    if a < b then a else b
  }

  // The queue with at most `remaining` bytes of `data` behind it, and the budget left.
  function PushBounded(q: Queue, stream: Stream, data: bytes, remaining: nat): (Queue, nat) {
    if remaining == 0 || data == [] then (q, remaining)
    else
      var take := Min(|data|, remaining);
      (q + [OutputChunk(stream, data[..take])], remaining - take)
  }

  function BuildQueue(stdout: bytes, stderr: bytes, maxOutput: nat): Queue {
    var (q, remaining) := PushBounded([], Stdout, stdout, maxOutput);
    PushBounded(q, Stderr, stderr, remaining).0
  }

  lemma PushKeepsPrefix(q: Queue, stream: Stream, data: bytes, remaining: nat)
    requires NoEmptyChunk(q)
    ensures
      var (q', left) := PushBounded(q, stream, data, remaining);
      var take := Min(|data|, remaining);
      && NoEmptyChunk(q') && left == remaining - take
      && Flat(q') == Flat(q) + Label(stream, data)[..take]
  {
    var take := Min(|data|, remaining);
    var c := OutputChunk(stream, data[..take]);
    FlatAppend(q, [c]);
    assert [c][1..] == [];
    assert Flat([c]) == Label(stream, data[..take]);
    LabelCut(stream, data, take);
  }

  // What is stored is the first `maxOutput` bytes of stdout followed by stderr, each with its label.
  lemma StoredIsBoundedPrefix(stdout: bytes, stderr: bytes, maxOutput: nat)
    ensures
      var all := Label(Stdout, stdout) + Label(Stderr, stderr);
      var q := BuildQueue(stdout, stderr, maxOutput);
      NoEmptyChunk(q) && Flat(q) == all[..Min(|all|, maxOutput)]
  {
    PushKeepsPrefix([], Stdout, stdout, maxOutput);
    var (q, left) := PushBounded([], Stdout, stdout, maxOutput);
    PushKeepsPrefix(q, Stderr, stderr, left);
  }

  // -------------------------------------------------------------------------
  // Draining
  // -------------------------------------------------------------------------

  datatype Reply = Reply(stream: Stream, data: bytes, eof: bool)

  // The size of the next chunk for a request, within the configured maximum and never zero.
  function Bound(maxBytes: Option<nat>, maxChunk: nat): nat {
    var wanted := if maxBytes.Some? then maxBytes.value else maxChunk;
    Min(if wanted < 1 then 1 else wanted, maxChunk)
  }

  function Pop(q: Queue, bound: nat): (Reply, Queue) {
    if q == [] then (Reply(Stdout, [], true), [])
    else if |q[0].data| > bound then
      (Reply(q[0].stream, q[0].data[..bound], false), [q[0].(data := q[0].data[bound..])] + q[1..])
    else (Reply(q[0].stream, q[0].data, |q| == 1), q[1..])
  }

  lemma PopPart(q: Queue, bound: nat)
    requires NoEmptyChunk(q) && q != [] && |q[0].data| > bound
    ensures
      var (r, q') := Pop(q, bound);
      NoEmptyChunk(q') && q' != [] && Flat(q) == Label(r.stream, r.data) + Flat(q')
  {
    var stream, data := q[0].stream, q[0].data;
    var q' := Pop(q, bound).1;
    assert q'[1..] == q[1..];
    assert Flat(q') == Label(stream, data[bound..]) + Flat(q[1..]);
    LabelCut(stream, data, bound);
    Reassociate(Label(stream, data[..bound]), Label(stream, data[bound..]), Flat(q[1..]));
  }

  lemma PopWhole(q: Queue, bound: nat)
    requires NoEmptyChunk(q) && (q == [] || |q[0].data| <= bound)
    ensures
      var (r, q') := Pop(q, bound);
      && NoEmptyChunk(q') && Flat(q) == Label(r.stream, r.data) + Flat(q')
      && (r.eof <==> q' == [])
  {
    if q == [] {
      assert Label(Stdout, []) == [];
    }
  }

  // One request takes exactly its reply off the front; eof says that nothing is left.
  lemma PopConserves(q: Queue, bound: nat)
    requires NoEmptyChunk(q) && bound > 0
    ensures
      var (r, q') := Pop(q, bound);
      && Flat(q) == Label(r.stream, r.data) + Flat(q')
      && NoEmptyChunk(q') && |r.data| <= bound
      && (r.eof <==> q' == [])
      && (q != [] ==> r.data != [])
  {
    if q != [] && |q[0].data| > bound {
      PopPart(q, bound);
    } else {
      PopWhole(q, bound);
    }
  }

  // Serving a list of requests.
  function Serve(q: Queue, requests: seq<Option<nat>>, maxChunk: nat): (seq<Reply>, Queue)
    decreases |requests|
  {
    if requests == [] then ([], q)
    else
      var (r, q1) := Pop(q, Bound(requests[0], maxChunk));
      var (rs, q2) := Serve(q1, requests[1..], maxChunk);
      ([r] + rs, q2)
  }

  function Delivered(rs: seq<Reply>): seq<(Stream, byte)> {
    if rs == [] then [] else Label(rs[0].stream, rs[0].data) + Delivered(rs[1..])
  }

  // Whatever the requests are, the replies and the rest of the queue are the stored bytes.
  lemma {:induction false} ServeConserves(q: Queue, requests: seq<Option<nat>>, maxChunk: nat)
    requires NoEmptyChunk(q) && maxChunk > 0
    ensures
      var (rs, q') := Serve(q, requests, maxChunk);
      NoEmptyChunk(q') && Flat(q) == Delivered(rs) + Flat(q')
    decreases |requests|
  {
    if requests == [] {
      assert [] + Flat(q) == Flat(q);
    } else {
      var (r, q1) := Pop(q, Bound(requests[0], maxChunk));
      PopConserves(q, Bound(requests[0], maxChunk));
      ServeConserves(q1, requests[1..], maxChunk);
      var (rs, q2) := Serve(q1, requests[1..], maxChunk);
      assert ([r] + rs)[1..] == rs;
      Reassociate(Label(r.stream, r.data), Delivered(rs), Flat(q2));
    }
  }

  lemma {:induction false} OneReplyEach(q: Queue, requests: seq<Option<nat>>, maxChunk: nat)
    ensures |Serve(q, requests, maxChunk).0| == |requests|
    decreases |requests|
  {
    if requests != [] {
      OneReplyEach(Pop(q, Bound(requests[0], maxChunk)).1, requests[1..], maxChunk);
    }
  }

  // The queue when request `i` comes.
  function QueueAt(q: Queue, requests: seq<Option<nat>>, maxChunk: nat, i: nat): Queue
    requires i <= |requests|
  {
    Serve(q, requests[..i], maxChunk).1
  }

  // How much a request may get: its own limit, at least a byte, and no more than the configured maximum.
  predicate Allows(request: Option<nat>, maxChunk: nat, n: nat) {
    && (request == None ==> n == maxChunk)
    && (request == Some(0) ==> n == 1)
    && (request.Some? && request.value > 0 ==> n == if request.value <= maxChunk then request.value else maxChunk)
  }

  // A reply has its front chunk's label, and as many of its bytes as the request may get.
  lemma {:induction false} RepliesAreFull(q: Queue, requests: seq<Option<nat>>, maxChunk: nat, i: nat, n: nat)
    requires NoEmptyChunk(q) && maxChunk > 0 && i < |requests| && Allows(requests[i], maxChunk, n)
    ensures |Serve(q, requests, maxChunk).0| == |requests|
    ensures
      var r, at := Serve(q, requests, maxChunk).0[i], QueueAt(q, requests, maxChunk, i);
      if at == [] then r == Reply(Stdout, [], true)
      else
        && r.stream == at[0].stream
        && r.data == (if |at[0].data| <= n then at[0].data else at[0].data[..n])
    decreases |requests|
  {
    OneReplyEach(q, requests, maxChunk);
    QueueAfterFirst(q, requests, maxChunk, i);
    var q1 := Pop(q, Bound(requests[0], maxChunk)).1;
    PopConserves(q, Bound(requests[0], maxChunk));
    if i > 0 {
      QueueAfterFirst(q, requests, maxChunk, i - 1);
      RepliesAreFull(q1, requests[1..], maxChunk, i - 1, n);
    }
  }

  lemma QueueAfterFirst(q: Queue, requests: seq<Option<nat>>, maxChunk: nat, i: nat)
    requires i < |requests|
    ensures QueueAt(q, requests, maxChunk, 0) == q
    ensures QueueAt(q, requests, maxChunk, i + 1)
            == QueueAt(Pop(q, Bound(requests[0], maxChunk)).1, requests[1..], maxChunk, i)
  {
    var served := requests[..i + 1];
    assert served[0] == requests[0] && served[1..] == requests[1..][..i];
  }

  // Every reply is within its own request's bound, is empty only when the queue was, and reports eof
  // exactly when it leaves the queue empty.
  lemma {:induction false} RepliesAnswerRequests(q: Queue, requests: seq<Option<nat>>, maxChunk: nat, i: nat)
    requires NoEmptyChunk(q) && maxChunk > 0 && i < |requests|
    ensures |Serve(q, requests, maxChunk).0| == |requests|
    ensures
      var r := Serve(q, requests, maxChunk).0[i];
      && |r.data| <= Bound(requests[i], maxChunk) <= maxChunk
      && (r.data == [] <==> QueueAt(q, requests, maxChunk, i) == [])
      && (r.eof <==> QueueAt(q, requests, maxChunk, i + 1) == [])
    decreases |requests|
  {
    OneReplyEach(q, requests, maxChunk);
    var (r, q1) := Pop(q, Bound(requests[0], maxChunk));
    PopConserves(q, Bound(requests[0], maxChunk));
    QueueAfterFirst(q, requests, maxChunk, i);
    if i > 0 {
      QueueAfterFirst(q, requests, maxChunk, i - 1);
      RepliesAnswerRequests(q1, requests[1..], maxChunk, i - 1);
    }
  }

  // A request that is not the last takes at least one byte, so as many requests as bytes empty the queue.
  lemma {:induction false} EnoughRequestsEmptyTheQueue(q: Queue, requests: seq<Option<nat>>, maxChunk: nat)
    requires NoEmptyChunk(q) && maxChunk > 0 && |requests| >= |Flat(q)|
    ensures Serve(q, requests, maxChunk).1 == []
    decreases |requests|
  {
    if q == [] {
      EmptyStaysEmpty(requests, maxChunk);
    } else {
      assert Flat(q) != [] by {
        assert Label(q[0].stream, q[0].data) != [];
      }
      PopConserves(q, Bound(requests[0], maxChunk));
      EnoughRequestsEmptyTheQueue(Pop(q, Bound(requests[0], maxChunk)).1, requests[1..], maxChunk);
    }
  }

  lemma {:induction false} EmptyStaysEmpty(requests: seq<Option<nat>>, maxChunk: nat)
    ensures Serve([], requests, maxChunk).1 == []
    decreases |requests|
  {
    if requests != [] {
      EmptyStaysEmpty(requests[1..], maxChunk);
    }
  }

  // After a command's output is stored, any requests that go on to eof deliver its bounded prefix,
  // and enough requests always get there.
  lemma DrainedOutputIsTheOutput(stdout: bytes, stderr: bytes, maxOutput: nat,
                                 requests: seq<Option<nat>>, maxChunk: nat)
    requires maxChunk > 0 && requests != []
    ensures
      var all := Label(Stdout, stdout) + Label(Stderr, stderr);
      var kept := all[..Min(|all|, maxOutput)];
      var rs := Serve(BuildQueue(stdout, stderr, maxOutput), requests, maxChunk).0;
      && |rs| == |requests|
      && (rs[|rs| - 1].eof <==> Delivered(rs) == kept)
      && (|requests| >= |kept| ==> rs[|rs| - 1].eof)
  {
    StoredIsBoundedPrefix(stdout, stderr, maxOutput);
    var q := BuildQueue(stdout, stderr, maxOutput);
    ServeConserves(q, requests, maxChunk);
    RepliesAnswerRequests(q, requests, maxChunk, |requests| - 1);
    assert requests[..|requests|] == requests;
    var (rs, q') := Serve(q, requests, maxChunk);
    if q' != [] {
      assert Label(q'[0].stream, q'[0].data) != [];
      assert Flat(q') != [];
      assert |Delivered(rs)| < |Flat(q)|;
    } else {
      assert Delivered(rs) + [] == Delivered(rs);
    }
    if |requests| >= |Flat(q)| {
      EnoughRequestsEmptyTheQueue(q, requests, maxChunk);
    }
  }

  // -------------------------------------------------------------------------
  // The session manager
  // -------------------------------------------------------------------------

  datatype Config = Config(maxSessionOutputBytes: nat, maxStreamChunkBytes: nat)

  predicate Validated(config: Config) {
    config.maxSessionOutputBytes > 0 && config.maxStreamChunkBytes > 0
  }

  class SessionManager {
    var sessions: map<string, Queue>
    const config: Config

    ghost predicate Valid()
      reads this
    {
      Validated(config) && forall id :: id in sessions ==> NoEmptyChunk(sessions[id])
    }

    constructor (config: Config)
      requires Validated(config)
      ensures Valid() && sessions == map[] && this.config == config
    {
      this.config := config;
      sessions := map[];
    }

    // The id comes from a counter that is not part of this model.
    method SpawnSession(id: string)
      requires Valid()
      modifies this
      ensures Valid() && sessions == old(sessions)[id := []]
    {
      sessions := sessions[id := []];
    }

    // The previous output of the session is replaced, read or not.
    method StoreCommandOutput(id: string, stdout: bytes, stderr: bytes) returns (r: Result<()>)
      requires Valid()
      modifies this
      ensures Valid()
      ensures r.Ok? <==> id in old(sessions)
      ensures sessions == if r.Ok? then old(sessions)[id := BuildQueue(stdout, stderr, config.maxSessionOutputBytes)]
                          else old(sessions)
    {
      if id !in sessions {
        return Err;
      }
      StoredIsBoundedPrefix(stdout, stderr, config.maxSessionOutputBytes);
      var queue: Queue := [];
      var remaining := config.maxSessionOutputBytes;
      queue, remaining := PushBoundedChunk(queue, Stdout, stdout, remaining);
      queue, remaining := PushBoundedChunk(queue, Stderr, stderr, remaining);
      sessions := sessions[id := queue];
      return Ok(());
    }

    method NextStreamChunk(id: string, maxBytes: Option<nat>) returns (r: Result<Reply>)
      requires Valid()
      modifies this
      ensures Valid()
      ensures r.Ok? <==> id in old(sessions)
      ensures r.Ok? ==>
                var (reply, rest) := Pop(old(sessions)[id], Bound(maxBytes, config.maxStreamChunkBytes));
                r.value == reply && sessions == old(sessions)[id := rest]
      ensures r.Err? ==> sessions == old(sessions)
    {
      if id !in sessions {
        return Err;
      }
      var wanted := if maxBytes.Some? then maxBytes.value else config.maxStreamChunkBytes;
      if wanted < 1 {
        wanted := 1;
      }
      var bounded := if wanted < config.maxStreamChunkBytes then wanted else config.maxStreamChunkBytes;
      var queue := sessions[id];
      PopConserves(queue, bounded);
      if queue == [] {
        sessions := sessions[id := []];
        return Ok(Reply(Stdout, [], true));
      }
      var chunk := queue[0];
      queue := queue[1..];
      if |chunk.data| > bounded {
        queue := [chunk.(data := chunk.data[bounded..])] + queue;
        chunk := chunk.(data := chunk.data[..bounded]);
      }
      sessions := sessions[id := queue];
      return Ok(Reply(chunk.stream, chunk.data, queue == []));
    }

    method KillSession(id: string) returns (killed: bool)
      requires Valid()
      modifies this
      ensures Valid() && killed == (id in old(sessions)) && sessions == old(sessions) - {id}
    {
      killed := id in sessions;
      sessions := sessions - {id};
    }
  }

  method PushBoundedChunk(queue: Queue, stream: Stream, data: bytes, remaining: nat)
    returns (queue': Queue, remaining': nat)
    ensures (queue', remaining') == PushBounded(queue, stream, data, remaining)
  {
    if remaining == 0 || data == [] {
      return queue, remaining;
    }
    var take := if |data| < remaining then |data| else remaining;
    return queue + [OutputChunk(stream, data[..take])], remaining - take;
  }
}
