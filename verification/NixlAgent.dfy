/** The mailboxes of one agent: messages by sender, notifications by sender. */
module NixlAgent {
  import opened Wrappers
  import opened Sequences

  function Queue<T>(boxes: map<string, seq<T>>, name: string): seq<T> {
    if name in boxes then boxes[name] else []
  }

  function Append<T>(boxes: map<string, seq<T>>, name: string, items: seq<T>): map<string, seq<T>> {
    boxes[name := Queue(boxes, name) + items]
  }

  /** The items of `name` in a stream of tagged batches, in order. */
  function From<T>(batches: seq<(string, seq<T>)>, name: string): seq<T> {
    if batches == [] then []
    else
      var n := |batches| - 1;
      From(batches[..n], name) + if batches[n].0 == name then batches[n].1 else []
  }

  /** The boxes after the batches were appended one by one. */
  function Delivered<T>(boxes: map<string, seq<T>>, batches: seq<(string, seq<T>)>): map<string, seq<T>> {
    if batches == [] then boxes
    else
      var n := |batches| - 1;
      Append(Delivered(boxes, batches[..n]), batches[n].0, batches[n].1)
  }

  function Singles<T>(items: seq<(string, T)>): seq<(string, seq<T>)> {
    seq(|items|, i requires 0 <= i < |items| => (items[i].0, [items[i].1]))
  }

  /** Delivery neither loses, nor duplicates, nor reorders what one sender sent. */
  lemma {:induction false} DeliveryKeepsOrder<T>(boxes: map<string, seq<T>>, batches: seq<(string, seq<T>)>,
                                            name: string)
    ensures Queue(Delivered(boxes, batches), name) == Queue(boxes, name) + From(batches, name)
  {
    if batches != [] {
      DeliveryKeepsOrder(boxes, batches[..|batches| - 1], name);
    }
  }

  /** Every queue but that of `name` has grown by what the batches hold for it. */
  ghost predicate OthersGrown<T>(before: map<string, seq<T>>, after: map<string, seq<T>>,
                                 batches: seq<(string, seq<T>)>, name: string) {
    forall other | other != name :: Queue(after, other) == Queue(before, other) + From(batches, other)
  }

  /** What was in the queue of `name` and what came in for it: nothing, or its head `r` and what is left in it. */
  ghost predicate HeadTaken<T>(before: map<string, seq<T>>, after: map<string, seq<T>>,
                               batches: seq<(string, seq<T>)>, name: string, r: Option<T>) {
    var queue := Queue(before, name) + From(batches, name);
    if r.None? then queue == [] == Queue(after, name) else queue == [r.value] + Queue(after, name)
  }

  lemma TakesHead<T>(before: map<string, seq<T>>, batches: seq<(string, seq<T>)>, boxes: map<string, seq<T>>,
                     name: string)
    requires boxes == Delivered(before, batches)
    ensures Queue(boxes, name) == [] ==>
              HeadTaken(before, boxes, batches, name, None) && OthersGrown(before, boxes, batches, name)
    ensures Queue(boxes, name) != [] ==>
              var q := Queue(boxes, name);
              && HeadTaken(before, boxes[name := q[1..]], batches, name, Some(q[0]))
              && OthersGrown(before, boxes[name := q[1..]], batches, name)
  {
    forall other ensures Queue(boxes, other) == Queue(before, other) + From(batches, other) {
      DeliveryKeepsOrder(before, batches, other);
    }
  }

  /** What the singles bring one sender: its arrivals, each once and in order; `at` is where they are. */
  lemma {:induction false} SinglesAreArrivals<T>(arrivals: seq<(string, T)>, name: string) returns (at: seq<nat>)
    ensures |at| == |From(Singles(arrivals), name)|
    ensures forall i | 0 <= i < |at| ::
              at[i] < |arrivals| && arrivals[at[i]] == (name, From(Singles(arrivals), name)[i])
    ensures forall i, j | 0 <= i < j < |at| :: at[i] < at[j]
    ensures forall k: nat | k < |arrivals| && arrivals[k].0 == name :: k in at
  {
    at := [];
    if arrivals != [] {
      var n := |arrivals| - 1;
      SinglesSnoc(arrivals, n);
      assert arrivals[..n + 1] == arrivals;
      at := SinglesAreArrivals(arrivals[..n], name);
      if arrivals[n].0 == name {
        at := at + [n];
      }
    }
  }

  lemma SinglesSnoc<T>(arrivals: seq<(string, T)>, n: nat)
    requires n < |arrivals|
    ensures Singles(arrivals[..n + 1]) == Singles(arrivals[..n]) + [(arrivals[n].0, [arrivals[n].1])]
  {
    assert Singles(arrivals[..n + 1])[..n] == Singles(arrivals[..n]);
  }

  /** The boxes after `used` arrivals, none of which came from `name` before the last. */
  ghost predicate Received<T>(before: map<string, seq<T>>, boxes: map<string, seq<T>>, arrivals: seq<(string, T)>,
                              used: nat, name: string)
    requires used <= |arrivals|
  {
    && boxes == Delivered(before, Singles(arrivals[..used]))
    && (forall k | 0 <= k < used - 1 :: arrivals[k].0 != name)
    && (used > 0 ==>
          && Queue(before, name) == []
          && Queue(boxes, name) == if arrivals[used - 1].0 == name then [arrivals[used - 1].1] else [])
  }

  lemma NextArrival<T>(before: map<string, seq<T>>, boxes: map<string, seq<T>>, arrivals: seq<(string, T)>, used: nat,
                       name: string)
    requires used < |arrivals| && Queue(boxes, name) == [] && Received(before, boxes, arrivals, used, name)
    ensures Received(before, Append(boxes, arrivals[used].0, [arrivals[used].1]), arrivals, used + 1, name)
  {
    SinglesSnoc(arrivals, used);
    assert arrivals[..0] == [];
  }

  /** The message is the last arrival, or nothing has arrived. */
  lemma LastArrivalTaken<T>(before: map<string, seq<T>>, boxes: map<string, seq<T>>, arrivals: seq<(string, T)>,
                            used: nat, name: string)
    requires used <= |arrivals| && Received(before, boxes, arrivals, used, name)
    ensures forall k | 0 <= k < used && arrivals[k].0 == name :: Queue(boxes, name) != [] && k == used - 1
    ensures used > 0 && Queue(boxes, name) != [] ==>
              arrivals[used - 1] == (name, Queue(boxes, name)[0]) && |Queue(boxes, name)| == 1
    ensures used > 0 ==> Queue(before, name) == []
    ensures boxes == Delivered(before, Singles(arrivals[..used]))
  {
  }

  /** One answer of `get_new_notifs`: per agent the keys that came in, in dictionary order. */
  type Poll = seq<(string, seq<seq<int>>)>

  lemma {:induction false} DeliveredConcat<T>(boxes: map<string, seq<T>>, p: seq<(string, seq<T>)>,
                                         q: seq<(string, seq<T>)>)
    ensures Delivered(boxes, p + q) == Delivered(Delivered(boxes, p), q)
  {
    if q == [] {
      assert p + q == p;
    } else {
      DeliveredConcat(boxes, p, q[..|q| - 1]);
      assert (p + q)[..|p + q| - 1] == p + q[..|q| - 1];
    }
  }

  /** The agent whose queue the loop looks at after some polls: the loop variable has the name of the
      parameter, so the last agent of the last non-empty poll replaces the agent asked for. */
  function Watched(asked: string, polls: seq<Poll>): string {
    if polls == [] then asked
    else
      var p := polls[|polls| - 1];
      if p == [] then Watched(asked, polls[..|polls| - 1]) else p[|p| - 1].0
  }

  /** After these polls the queue watched is empty. */
  predicate Waiting(boxes: map<string, seq<seq<int>>>, asked: string, polls: seq<Poll>) {
    var who := Watched(asked, polls); Queue(boxes, who) == [] && From(Join(polls), who) == []
  }

  lemma NextPoll(boxes: map<string, seq<seq<int>>>, asked: string, polls: seq<Poll>, used: nat)
    requires used < |polls|
    requires Queue(Delivered(boxes, Join(polls[..used])), Watched(asked, polls[..used])) == []
    ensures Waiting(boxes, asked, polls[..used])
    ensures Delivered(boxes, Join(polls[..used + 1])) == Delivered(Delivered(boxes, Join(polls[..used])), polls[used])
    ensures var p := polls[used];
            Watched(asked, polls[..used + 1]) == if p == [] then Watched(asked, polls[..used]) else p[|p| - 1].0
  {
    DeliveryKeepsOrder(boxes, Join(polls[..used]), Watched(asked, polls[..used]));
    assert polls[..used + 1] == polls[..used] + [polls[used]];
    JoinSnoc(polls[..used], polls[used]);
    DeliveredConcat(boxes, Join(polls[..used]), polls[used]);
  }

  predicate OnlyFrom(polls: seq<Poll>, name: string) {
    forall p | p in polls :: forall e | e in p :: e.0 == name
  }

  lemma OnlyFromPrefix(polls: seq<Poll>, name: string, n: nat)
    requires OnlyFrom(polls, name) && n <= |polls|
    ensures OnlyFrom(polls[..n], name)
  {
    forall p | p in polls[..n] ensures p in polls {
    }
  }

  lemma {:induction false} WatchedStays(asked: string, polls: seq<Poll>)
    requires OnlyFrom(polls, asked)
    ensures Watched(asked, polls) == asked
  {
    if polls != [] {
      var p := polls[|polls| - 1];
      assert p in polls;
      if p == [] {
        OnlyFromPrefix(polls, asked, |polls| - 1);
        WatchedStays(asked, polls[..|polls| - 1]);
      } else {
        assert p[|p| - 1] in p;
      }
    }
  }

  /** While only the agent asked for notifies, its queue is the one watched after any number of polls. */
  lemma OnlyNotifierWatched(asked: string, polls: seq<Poll>, used: nat)
    requires OnlyFrom(polls, asked) && used <= |polls|
    ensures Watched(asked, polls[..used]) == asked
  {
    OnlyFromPrefix(polls, asked, used);
    WatchedStays(asked, polls[..used]);
  }

  class Agent<M> {
    var messages: map<string, seq<M>>
    var notifications: map<string, seq<seq<int>>>

    constructor ()
      ensures messages == map[] && notifications == map[]
    {
      messages, notifications := map[], map[];
    }

    /** Receives from the socket until the sender asked for has a message queued; `arrivals` is what the
        socket will deliver, None means still waiting after all of it. The message is the head of the queue,
        or, where that was empty, the last arrival, before which none came from that sender. Every other queue
        grows by its sender's arrivals. */
    method ReadMessage(name: string, arrivals: seq<(string, M)>) returns (r: Option<M>, used: nat)
      modifies this`messages
      ensures used <= |arrivals|
      ensures HeadTaken(old(messages), messages, Singles(arrivals[..used]), name, r)
      ensures OthersGrown(old(messages), messages, Singles(arrivals[..used]), name)
      ensures used > 0 ==> Queue(old(messages), name) == [] == Queue(messages, name)
      ensures used > 0 && r.Some? ==> arrivals[used - 1] == (name, r.value)
      ensures forall k | 0 <= k < used && arrivals[k].0 == name :: r.Some? && k == used - 1
      ensures r.None? ==> used == |arrivals|
    {
      used := 0;
      assert arrivals[..0] == [];
      while Queue(messages, name) == [] && used < |arrivals|
        invariant used <= |arrivals|
        invariant Received(old(messages), messages, arrivals, used, name)
      {
        NextArrival(old(messages), messages, arrivals, used, name);
        messages := Append(messages, arrivals[used].0, [arrivals[used].1]);
        used := used + 1;
      }
      LastArrivalTaken(old(messages), messages, arrivals, used, name);
      TakesHead(old(messages), Singles(arrivals[..used]), messages, name);
      r := None;
      if Queue(messages, name) != [] {
        var q := Queue(messages, name);
        r := Some(q[0]);
        messages := messages[name := q[1..]];
      }
    }

    /** Appends one poll to the queues; `last` is the loop variable afterwards. */
    method Extend(poll: Poll, asked: string) returns (last: string)
      modifies this`notifications
      ensures notifications == Delivered(old(notifications), poll)
      ensures last == if poll == [] then asked else poll[|poll| - 1].0
    {
      last := asked;
      for i := 0 to |poll|
        invariant notifications == Delivered(old(notifications), poll[..i])
        invariant last == if i == 0 then asked else poll[i - 1].0
      {
        last := poll[i].0;
        assert poll[..i + 1][..i] == poll[..i];
        notifications := Append(notifications, last, poll[i].1);
      }
      assert poll[..|poll|] == poll;
    }

    /** Polls until the watched queue has a key and pops it. `who` is the agent whose key it is. Every other
        queue grows by the keys that its agent has in the polls. */
    method GetNotification(asked: string, polls: seq<Poll>)
      returns (r: Option<seq<int>>, ghost who: string, used: nat)
      modifies this`notifications
      ensures used <= |polls| && who == Watched(asked, polls[..used])
      ensures HeadTaken(old(notifications), notifications, Join(polls[..used]), who, r)
      ensures OthersGrown(old(notifications), notifications, Join(polls[..used]), who)
      ensures r.None? ==> used == |polls|
      ensures used > 0 ==> Waiting(old(notifications), asked, polls[..used - 1])
    {
      var remote := asked;
      used := 0;
      while Queue(notifications, remote) == [] && used < |polls|
        invariant used <= |polls| && remote == Watched(asked, polls[..used])
        invariant notifications == Delivered(old(notifications), Join(polls[..used]))
        invariant used > 0 ==> Waiting(old(notifications), asked, polls[..used - 1])
      {
        NextPoll(old(notifications), asked, polls, used);
        remote := Extend(polls[used], remote);
        used := used + 1;
      }
      who := remote;
      TakesHead(old(notifications), Join(polls[..used]), notifications, remote);
      r := None;
      if Queue(notifications, remote) != [] {
        var q := Queue(notifications, remote);
        r := Some(q[0]);
        notifications := notifications[remote := q[1..]];
      }
    }
  }

  /** What `get_notification` hands back is a key of the agent asked for exactly when the last non-empty
      poll ended with that agent; any second agent that notifies can break it. */
  lemma WatchedIsAskedIff(asked: string, polls: seq<Poll>, silent: seq<Poll>, p: Poll)
    requires p != [] && forall i | 0 <= i < |silent| :: silent[i] == []
    ensures Watched(asked, polls + [p] + silent) == asked <==> p[|p| - 1].0 == asked
  {
    WatchedSkipsSilence(asked, polls + [p], silent);
  }

  lemma {:induction false} WatchedSkipsSilence(asked: string, polls: seq<Poll>, silent: seq<Poll>)
    requires forall i | 0 <= i < |silent| :: silent[i] == []
    ensures Watched(asked, polls + silent) == Watched(asked, polls)
  {
    if silent == [] {
      assert polls + silent == polls;
    } else {
      var n := |silent| - 1;
      assert (polls + silent)[..|polls + silent| - 1] == polls + silent[..n];
      WatchedSkipsSilence(asked, polls, silent[..n]);
    }
  }

  /** With a second notifying agent the wait for "next" is answered with the key of "other". */
  lemma ForeignKeyReturned()
    ensures var polls: seq<Poll> := [[("next", [[1]]), ("other", [[2]])]];
            && Watched("next", polls) == "other"
            && Queue(Delivered(map[], Join(polls)), "other") == [[2]]
  {
    var p: Poll := [("next", [[1]]), ("other", [[2]])];
    assert [p][..0] == [];
    JoinOne(p);
    assert p[..1][..0] == [];
    assert Delivered(map[], p[..1]) == Append(map[], "next", [[1]]);
    assert Delivered(map[], p) == Append(Delivered(map[], p[..1]), "other", [[2]]);
  }
}

/** The engine for a trainer and a rollout on one device: what the other engines have to amount to. */
module ColocatedEngine {
  import opened Wrappers
  import opened Weights
  import opened Metadata
  import opened Transfer
  import NixlRing
  import NixlRingTheorems
  import NcclBroadcast

  class Engine {
    var weights: Option<seq<Weight>>

    constructor ()
      ensures weights == None
    {
      weights := None;
    }

    method SendWeights(ws: seq<Weight>)
      modifies this
      ensures weights == Some(ws)
    {
      weights := Some(ws);
    }

    /** None stands for the TypeError of draining an engine that holds nothing. */
    method ReceiveWeights() returns (out: Option<seq<Weight>>)
      modifies this
      ensures out == old(weights) && weights == None
    {
      out := weights;
      weights := None;
    }
  }

  method Handover(ws: seq<Weight>) returns (out: Option<seq<Weight>>)
    ensures out == Some(ws)
  {
    var e := new Engine();
    e.SendWeights(ws);
    out := e.ReceiveWeights();
  }

  /** A stopped ring and a stopped broadcast of the same weights leave every receiver with the same list. It is
      the one the colocated engine hands over exactly when no bucket has two weights of one name. */
  lemma EnginesAgree(cfg: Config, ring: NixlRing.State, cast: NcclBroadcast.State, r: nat, i: nat)
    requires Ok(cfg) && 0 < r < cfg.n && NixlRing.Shaped(cfg, ring) && i < |cast.recv|
    requires NixlRing.Reachable(cfg, ring) && forall k, act :: !NixlRing.Can(cfg, ring, k, act)
    requires NcclBroadcast.Reachable(cfg, cast) && NcclBroadcast.Stopped(cfg, cast)
    ensures ring.ranks[r].out == cast.recv[i].out
    ensures ring.ranks[r].out == cfg.ws <==> NamesApart(Buckets(cfg.ws, cfg.size))
  {
    NixlRingTheorems.StoppedRingDelivered(cfg, ring, r);
    NcclBroadcast.StoppedBroadcastDelivered(cfg, cast, i);
  }
}
