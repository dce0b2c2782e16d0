/** The waits of the ring through the mailbox class: whatever polls the notifications of a rank arrive in,
    `wait_for_complete` finds the rank's own key. */
module NixlMailbox {
  import opened Wrappers
  import opened Sequences
  import opened Weights
  import opened Transfer
  import opened NixlRing
  import opened NixlRingTheorems
  import opened NixlAgent

  /** What one event sends to the inbox of rank r. */
  function NotifiesOf(cfg: Config, s: State, e: Event, r: nat): seq<Notif>
    requires Can(cfg, s, e.rank, e.act)
  {
    var k := e.rank;
    if k == r + 1 then Move(cfg, k, s.ranks[k], s.msgs[k], s.notifs[k], Source(s, k), e.act).notifies else []
  }

  /** All notifications that a run sends to rank r. */
  function SentTo(cfg: Config, s: State, run: seq<Event>, r: nat): seq<Notif>
    requires Runs(cfg, s, run)
    decreases |run|
  {
    if run == [] then []
    else NotifiesOf(cfg, s, run[0], r) + SentTo(cfg, Step(cfg, s, run[0].rank, run[0].act), run[1..], r)
  }

  lemma MoveNotifies(cfg: Config, r: nat, me: Rank, q: seq<Msg>, nq: seq<Notif>, src: seq<byte>, act: Act)
    requires Enabled(cfg, r, me, q, nq, act)
    ensures var n := Move(cfg, r, me, q, nq, src, act).notifies; n == [] || n == [Notif(r, me.read.key)]
    ensures Move(cfg, r, me, q, nq, src, act).pops <==> act == Ack
  {
  }

  ghost predicate AllFrom(notifs: seq<Notif>, from: nat) {
    forall i | 0 <= i < |notifs| :: notifs[i].from == from
  }

  lemma NotifiesFrom(cfg: Config, s: State, e: Event, r: nat)
    requires Can(cfg, s, e.rank, e.act)
    ensures AllFrom(NotifiesOf(cfg, s, e, r), r + 1)
  {
    var k := e.rank;
    MoveNotifies(cfg, k, s.ranks[k], s.msgs[k], s.notifs[k], Source(s, k), e.act);
  }

  /** In every run only the successor notifies a rank. */
  lemma {:induction false} OnlySuccessorNotifies(cfg: Config, s: State, run: seq<Event>, r: nat)
    requires Runs(cfg, s, run)
    ensures AllFrom(SentTo(cfg, s, run, r), r + 1)
    decreases |run|
  {
    if run != [] {
      NotifiesFrom(cfg, s, run[0], r);
      OnlySuccessorNotifies(cfg, Step(cfg, s, run[0].rank, run[0].act), run[1..], r);
    }
  }

  /** What an event takes out of the inbox of rank r. */
  function TakenBy(s: State, e: Event, r: nat): seq<Notif>
    requires r < |s.notifs|
  {
    if e == Event(r, Ack) && s.notifs[r] != [] then [s.notifs[r][0]] else []
  }

  lemma StepInbox(cfg: Config, s: State, e: Event, r: nat)
    requires Can(cfg, s, e.rank, e.act) && r < cfg.n
    ensures var t := Step(cfg, s, e.rank, e.act);
            s.notifs[r] + NotifiesOf(cfg, s, e, r) == TakenBy(s, e, r) + t.notifs[r]
  {
    var k := e.rank;
    MoveNotifies(cfg, k, s.ranks[k], s.msgs[k], s.notifs[k], Source(s, k), e.act);
  }

  /** A rank's inbox holds what was in it and what the run has sent, less what it has taken out, in order. */
  lemma {:induction false} InboxIsStream(cfg: Config, s: State, run: seq<Event>, r: nat) returns (taken: seq<Notif>)
    requires Shaped(cfg, s) && Runs(cfg, s, run) && r < cfg.n
    ensures s.notifs[r] + SentTo(cfg, s, run, r) == taken + After(cfg, s, run).notifs[r]
    decreases |run|
  {
    if run == [] {
      taken := [];
    } else {
      var t := Step(cfg, s, run[0].rank, run[0].act);
      StepInbox(cfg, s, run[0], r);
      var later := InboxIsStream(cfg, t, run[1..], r);
      taken := TakenBy(s, run[0], r) + later;
      Shuffle(s.notifs[r], NotifiesOf(cfg, s, run[0], r), SentTo(cfg, t, run[1..], r),
              TakenBy(s, run[0], r), t.notifs[r], later, After(cfg, t, run[1..]).notifs[r]);
    }
  }

  lemma Shuffle<T>(had: seq<T>, sent: seq<T>, sentLater: seq<T>, taken: seq<T>,
                   has: seq<T>, takenLater: seq<T>, left: seq<T>)
    requires had + sent == taken + has && has + sentLater == takenLater + left
    ensures had + (sent + sentLater) == (taken + takenLater) + left
  {
    assert had + (sent + sentLater) == (had + sent) + sentLater;
    assert (taken + has) + sentLater == taken + (has + sentLater);
    assert taken + (takenLater + left) == (taken + takenLater) + left;
  }

  // ----- polls

  /** The keys of the notifications that come from this agent, in order. */
  function KeysFrom(notifs: seq<Notif>, name: nat -> string, agent: string): seq<seq<int>> {
    if notifs == [] then []
    else
      var rest, n := KeysFrom(notifs[..|notifs| - 1], name, agent), notifs[|notifs| - 1];
      if name(n.from) == agent then rest + [n.key] else rest
  }

  /** The polls hand out these notifications: no entry is empty, and each agent's keys are in order. */
  ghost predicate Splits(polls: seq<Poll>, notifs: seq<Notif>, name: nat -> string) {
    && (forall p, e | p in polls && e in p :: e.1 != [])
    && forall agent :: From(Join(polls), agent) == KeysFrom(notifs, name, agent)
  }

  lemma {:induction false} EntryInAll(polls: seq<Poll>, p: Poll, e: (string, seq<seq<int>>))
    requires p in polls && e in p
    ensures e in Join(polls)
  {
    if p != polls[0] {
      assert p in polls[1..];
      EntryInAll(polls[1..], p, e);
    }
  }

  lemma {:induction false} EntryContributes(batches: seq<(string, seq<seq<int>>)>, e: (string, seq<seq<int>>))
    requires e in batches && e.1 != []
    ensures From(batches, e.0) != []
  {
    var rest, last := batches[..|batches| - 1], batches[|batches| - 1];
    assert batches == rest + [last];
    if e != last {
      EntryContributes(rest, e);
    }
  }

  lemma {:induction false} KeysFromOne(notifs: seq<Notif>, name: nat -> string, r: nat, agent: string)
    requires AllFrom(notifs, r + 1)
    ensures KeysFrom(notifs, name, agent) != [] ==> agent == name(r + 1)
  {
    if notifs != [] {
      KeysFromOne(notifs[..|notifs| - 1], name, r, agent);
    }
  }

  /** However notifications of one agent are split into polls, the polls are of that agent only. */
  lemma SplitsOnlyFrom(polls: seq<Poll>, notifs: seq<Notif>, name: nat -> string, r: nat)
    requires Splits(polls, notifs, name) && AllFrom(notifs, r + 1)
    ensures OnlyFrom(polls, name(r + 1))
  {
    forall p | p in polls ensures forall e | e in p :: e.0 == name(r + 1) {
      forall e | e in p ensures e.0 == name(r + 1) {
        EntryInAll(polls, p, e);
        EntryContributes(Join(polls), e);
        KeysFromOne(notifs, name, r, e.0);
      }
    }
  }

  lemma {:induction false} FromConcat(p: Poll, q: Poll, name: string)
    ensures From(p + q, name) == From(p, name) + From(q, name)
  {
    if q == [] {
      assert p + q == p;
    } else {
      FromConcat(p, q[..|q| - 1], name);
      assert (p + q)[..|p + q| - 1] == p + q[..|q| - 1];
    }
  }

  /** What some polls brought an agent comes first in what all of them bring. */
  lemma PrefixOfPolls(polls: seq<Poll>, used: nat, name: string)
    requires used <= |polls|
    ensures From(Join(polls[..used]), name) <= From(Join(polls), name)
  {
    assert polls == polls[..used] + polls[used..];
    JoinConcat(polls[..used], polls[used..]);
    FromConcat(Join(polls[..used]), Join(polls[used..]), name);
  }

  lemma KeysOfInbox(notifs: seq<Notif>, name: nat -> string, from: nat, key: Key)
    requires notifs == [] || notifs == [Notif(from, key)]
    ensures AllFrom(notifs, from)
    ensures KeysFrom(notifs, name, name(from)) == if notifs == [] then [] else [key]
  {
    if notifs != [] {
      assert notifs[..0] == [];
      assert KeysFrom(notifs[..0], name, name(from)) == [];
    }
  }

  lemma PollsOfInbox(t: State, r: nat, polls: seq<Poll>, name: nat -> string)
    requires r < |t.ranks| == |t.notifs| && InboxFine(t, r) && Splits(polls, t.notifs[r], name)
    ensures OnlyFrom(polls, name(r + 1))
    ensures t.notifs[r] != [] ==> t.ranks[r].op.Pub?
    ensures From(Join(polls), name(r + 1)) == if t.notifs[r] == [] then [] else [t.ranks[r].op.key]
  {
    KeysOfInbox(t.notifs[r], name, r + 1, if t.notifs[r] == [] then [] else t.ranks[r].op.key);
    SplitsOnlyFrom(polls, t.notifs[r], name, r);
  }

  /** In every reachable state, whatever polls the inbox of a rank arrives in, they are of its successor only,
      and bring nothing or the rank's own outstanding key: the reused loop variable cannot turn the wait to
      another queue. */
  lemma PollsAnswerTheWait(cfg: Config, t: State, r: nat, polls: seq<Poll>, name: nat -> string)
    requires Ok(cfg) && Reachable(cfg, t) && Shaped(cfg, t) && r < cfg.n && Splits(polls, t.notifs[r], name)
    ensures OnlyFrom(polls, name(r + 1))
    ensures t.notifs[r] != [] ==> t.ranks[r].op.Pub?
    ensures From(Join(polls), name(r + 1)) == if t.notifs[r] == [] then [] else [t.ranks[r].op.key]
  {
    NotifyKeyMatches(cfg, t, r);
    PollsOfInbox(t, r, polls, name);
  }

  /** What a wait on an empty queue ends with: nothing after all polls, or the head after some of them. */
  lemma WaitOutcome(polls: seq<Poll>, used: nat, remote: string, key: Option<seq<int>>, rest: seq<seq<int>>)
    requires used <= |polls|
    requires var queue := From(Join(polls[..used]), remote);
             if key.None? then used == |polls| && queue == [] else queue == [key.value] + rest
    ensures var all := From(Join(polls), remote);
            if key.None? then all == [] else all != [] && all[0] == key.value
  {
    PrefixOfPolls(polls, used, remote);
    if key.None? {
      assert polls[..used] == polls;
    }
  }

  /** `ReadableOperation.wait_for_complete` of rank r: None while the polls have brought nothing, else whether
      the assert on the key holds. It always does. */
  method WaitForComplete<M>(agent: Agent<M>, remote: string, notifyKey: seq<int>, polls: seq<Poll>,
                            ghost cfg: Config, ghost t: State, ghost r: nat, ghost name: nat -> string)
    returns (matched: Option<bool>)
    requires Ok(cfg) && Reachable(cfg, t) && Shaped(cfg, t) && r < cfg.n && remote == name(r + 1)
    requires t.ranks[r].op.Pub? && t.ranks[r].op.key == notifyKey
    requires Queue(agent.notifications, remote) == [] && Splits(polls, t.notifs[r], name)
    modifies agent`notifications
    ensures matched == if t.notifs[r] == [] then None else Some(true)
  {
    PollsAnswerTheWait(cfg, t, r, polls, name);
    var key, who, used := agent.GetNotification(remote, polls);
    OnlyNotifierWatched(remote, polls, used);
    WaitOutcome(polls, used, remote, key, Queue(agent.notifications, remote));
    if key.None? {
      return None;
    }
    matched := Some(key.value == notifyKey);
  }
}
