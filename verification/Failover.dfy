/** Channel failover (`run`, `run_stream` and `handle` in `backend/src/proxy/gateway.cpp`,
    `next_channel` in `backend/src/channels/channel_groups.cpp`): three loops, one scheduler. */
module Failover {
  import opened Text
  import StreamPump

  const NO_USAGE := StreamPump.Usage(0, 0, 0, 0, 0)

  datatype Kind = OpenaiChat | OpenaiResponses | AnthropicMessages

  datatype Channel = Channel(id: int, kind: string, enabled: bool, apiKey: string)

  predicate ChannelOk(kind: Kind, c: Channel) {
    && c.enabled
    && c.kind == (if kind == AnthropicMessages then "anthropic" else "openai_compatible")
    && c.apiKey != ""
  }

  /** What asking one channel comes to. */
  datatype Outcome = Answered(status: int, body: string, sse: bool) | Thrown(message: string)

  predicate Succeeds(o: Outcome) {
    o.Answered? && o.status < 400
  }

  const UPSTREAM_FAILED := "{\"error\":{\"message\":\"proxy upstream failed\"}}"

  function ErrorBody(message: string): string {
    "{\"error\":{\"message\":\"" + message + "\"}}"
  }

  datatype Failure = Failure(status: int, body: string)

  /** What `run` and `run_stream` remember of a failed attempt. */
  function PlainFailure(o: Outcome): Failure {
    match o
    case Answered(status, body, _) => Failure(status, body)
    case Thrown(_) => Failure(502, UPSTREAM_FAILED)
  }

  /** What `handle` remembers of one: the exception text is relayed. */
  function VerboseFailure(o: Outcome): Failure {
    match o
    case Answered(status, body, _) => Failure(status, body)
    case Thrown(message) => Failure(502, ErrorBody(message))
  }

  // ---------------------------------------------------------------------------------
  // The scheduler
  // ---------------------------------------------------------------------------------

  datatype Reply =
    | GroupUnavailable
    | NoChannel
    | Won(index: nat)
    | Relayed(failure: Failure)

  /** The index `k` steps on from the start pointer. */
  function At(n: nat, start: nat, k: nat): nat {
    if start + k < n then start + k else start + k - n
  }

  /** The first `k` indices of the rotation. */
  function Rotation(n: nat, start: nat, k: nat): seq<nat>
    requires start < n && k <= n
  {
    if k == 0 then [] else Rotation(n, start, k - 1) + [At(n, start, k - 1)]
  }

  function Eligible(kind: Kind, channels: seq<Channel>, order: seq<nat>): seq<nat>
    requires forall i | 0 <= i < |order| :: order[i] < |channels|
  {
    if order == [] then []
    else
      var last := order[|order| - 1];
      Eligible(kind, channels, order[..|order| - 1]) + (if ChannelOk(kind, channels[last]) then [last] else [])
  }

  lemma {:induction false} RotationAt(n: nat, start: nat, k: nat)
    requires start < n && k <= n
    ensures |Rotation(n, start, k)| == k
    ensures forall i | 0 <= i < k :: Rotation(n, start, k)[i] == At(n, start, i) < n
  {
    if k > 0 {
      RotationAt(n, start, k - 1);
    }
  }

  /** The eligible ones among the first `k` indices, in rotation order. */
  function EligibleUpTo(kind: Kind, channels: seq<Channel>, start: nat, k: nat): seq<nat>
    requires start < |channels| && k <= |channels|
  {
    RotationAt(|channels|, start, k);
    Eligible(kind, channels, Rotation(|channels|, start, k))
  }

  /** The eligible indices in rotation order from the start pointer. */
  function Candidates(kind: Kind, channels: seq<Channel>, start: nat): seq<nat>
    requires start < |channels|
  {
    EligibleUpTo(kind, channels, start, |channels|)
  }

  /** Which channels are asked and what is replied: the candidates in order, up to and with the
      first success; the reply is the winner, or the last failure, or that there is no candidate. */
  ghost predicate Scheduled(candidates: seq<nat>, ask: nat -> Outcome, remember: Outcome -> Failure,
                            attempts: seq<nat>, reply: Reply)
  {
    && attempts <= candidates
    && (forall i | 0 <= i < |attempts| - 1 :: !Succeeds(ask(attempts[i])))
    && (attempts == [] ==> candidates == [] && reply == NoChannel)
    && (attempts != [] ==>
          var last := attempts[|attempts| - 1];
          if Succeeds(ask(last)) then reply == Won(last)
          else attempts == candidates && reply == Relayed(remember(ask(last))))
  }

  /** The position of the first candidate that answers; the length if none does. */
  function FirstSuccess(candidates: seq<nat>, ask: nat -> Outcome): (n: nat)
    ensures n <= |candidates|
    ensures forall i | 0 <= i < n :: !Succeeds(ask(candidates[i]))
    ensures n < |candidates| ==> Succeeds(ask(candidates[n]))
  {
    if candidates == [] || Succeeds(ask(candidates[0])) then 0 else 1 + FirstSuccess(candidates[1..], ask)
  }

  function AttemptsOf(candidates: seq<nat>, ask: nat -> Outcome): seq<nat> {
    var n := FirstSuccess(candidates, ask);
    if n < |candidates| then candidates[..n + 1] else candidates
  }

  function ReplyOf(candidates: seq<nat>, ask: nat -> Outcome, remember: Outcome -> Failure): Reply {
    var n := FirstSuccess(candidates, ask);
    if candidates == [] then NoChannel
    else if n < |candidates| then Won(candidates[n])
    else Relayed(remember(ask(candidates[|candidates| - 1])))
  }

  /** A schedule is kept exactly by these attempts and this reply. */
  lemma ScheduledExactly(candidates: seq<nat>, ask: nat -> Outcome, remember: Outcome -> Failure,
                         attempts: seq<nat>, reply: Reply)
    ensures Scheduled(candidates, ask, remember, attempts, reply) <==>
              attempts == AttemptsOf(candidates, ask) && reply == ReplyOf(candidates, ask, remember)
  {
    var n := FirstSuccess(candidates, ask);
    if Scheduled(candidates, ask, remember, attempts, reply) && attempts != [] {
      var last := |attempts| - 1;
      assert attempts == candidates[..last + 1];
      assert attempts[last] == candidates[last];
      assert forall i | 0 <= i < last :: !Succeeds(ask(candidates[i]));
    }
    if attempts == AttemptsOf(candidates, ask) {
      assert forall i | 0 <= i < |attempts| :: attempts[i] == candidates[i];
    }
  }

  /** Whether a request is served does not depend on the order of the group or on where it starts. */
  lemma ServedWhateverOrder(kind: Kind, channels: seq<Channel>, start: nat, ask: nat -> Outcome,
                            remember: Outcome -> Failure)
    requires start < |channels|
    ensures
      var reply := ReplyOf(Candidates(kind, channels, start), ask, remember);
      var upstream := if kind == AnthropicMessages then "anthropic" else "openai_compatible";
      && (reply.Won? <==>
            exists i :: 0 <= i < |channels| &&
              channels[i].enabled && channels[i].kind == upstream && channels[i].apiKey != "" &&
              ask(i).Answered? && ask(i).status < 400)
      && (reply.NoChannel? <==>
            forall i | 0 <= i < |channels| ::
              !(channels[i].enabled && channels[i].kind == upstream && channels[i].apiKey != ""))
  {
    hide Candidates;
    var c := Candidates(kind, channels, start);
    CandidatesExact(kind, channels, start);
    var n := FirstSuccess(c, ask);
    if n < |c| {
      assert c[n] in c;
    }
    if i: nat :| i < |channels| && i in c && Succeeds(ask(i)) {
      var j :| 0 <= j < |c| && c[j] == i;
    }
    if c != [] {
      assert c[0] in c;
    }
  }

  /** Who serves it does: the answer below 400 whose channel is nearest after the start, and before
      it only failures; and if all fail, the failure of the one that is farthest. */
  lemma NearestServes(kind: Kind, channels: seq<Channel>, start: nat, ask: nat -> Outcome, remember: Outcome -> Failure)
    requires start < |channels|
    ensures
      var c, n := Candidates(kind, channels, start), |channels|;
      match ReplyOf(c, ask, remember)
      case Won(i) =>
        && i in c && ask(i).Answered? && ask(i).status < 400
        && forall j | j in c && Distance(n, start, j) < Distance(n, start, i) :: ask(j).Answered? ==> ask(j).status >= 400
      case Relayed(f) =>
        exists i: nat :: i in c && f == remember(ask(i)) &&
          forall j | j in c :: Distance(n, start, j) <= Distance(n, start, i) && (ask(j).Answered? ==> ask(j).status >= 400)
      case _ => c == []
  {
    CandidatesExact(kind, channels, start);
    hide Candidates, Distance, ReplyOf;
    var c, n := Candidates(kind, channels, start), |channels|;
    var k := FirstSuccess(c, ask);
    ReplyCases(c, ask, remember);
    if k < |c| {
      forall j | j in c && Distance(n, start, j) < Distance(n, start, c[k]) ensures !Succeeds(ask(j)) {
        var m :| 0 <= m < |c| && c[m] == j;
      }
    } else if c != [] {
      var i := c[|c| - 1];
      forall j | j in c ensures Distance(n, start, j) <= Distance(n, start, i) && !Succeeds(ask(j)) {
        var m :| 0 <= m < |c| && c[m] == j;
      }
      assert i in c;
    }
  }

  /** The channel at the pointer serves if it can. */
  lemma PointerFirst(kind: Kind, channels: seq<Channel>, start: nat, ask: nat -> Outcome, remember: Outcome -> Failure)
    requires start < |channels| && channels[start].enabled && channels[start].apiKey != ""
    requires channels[start].kind == (if kind == AnthropicMessages then "anthropic" else "openai_compatible")
    requires ask(start).Answered? && ask(start).status < 400
    ensures ReplyOf(Candidates(kind, channels, start), ask, remember) == Won(start)
  {
    hide Candidates, ReplyOf;
    CandidatesExact(kind, channels, start);
    NearestServes(kind, channels, start, ask, remember);
    var c := Candidates(kind, channels, start);
    assert start in c && Distance(|channels|, start, start) == 0;
    assert forall i | 0 <= i < |channels| && i != start :: Distance(|channels|, start, i) > 0;
  }

  lemma ReplyCases(c: seq<nat>, ask: nat -> Outcome, remember: Outcome -> Failure)
    ensures var n := FirstSuccess(c, ask);
            ReplyOf(c, ask, remember) ==
              if c == [] then NoChannel
              else if n < |c| then Won(c[n])
              else Relayed(remember(ask(c[|c| - 1])))
  {
  }

  /** What a failure is remembered as: status and body of an answer; 502 and a text for an exception,
      which only `handle` relays. */
  lemma Remembered(status: int, body: string, sse: bool, message: string)
    ensures PlainFailure(Answered(status, body, sse)) == Failure(status, body)
    ensures VerboseFailure(Answered(status, body, sse)) == Failure(status, body)
    ensures PlainFailure(Thrown(message)) == Failure(502, "{\"error\":{\"message\":\"proxy upstream failed\"}}")
    ensures VerboseFailure(Thrown(message)) == Failure(502, "{\"error\":{\"message\":\"" + message + "\"}}")
  {
  }

  /** By whom does: two channels that both answer, in both orders. */
  lemma OrderDecidesWhom(a: Channel, b: Channel, remember: Outcome -> Failure)
    requires ChannelOk(OpenaiChat, a) && ChannelOk(OpenaiChat, b)
    ensures var ask := (_: nat) => Answered(200, "", false);
            && ReplyOf(Candidates(OpenaiChat, [a, b], 0), ask, remember) == Won(0)
            && ReplyOf(Candidates(OpenaiChat, [b, a], 0), ask, remember) == Won(0)
  {
    hide ChannelOk;
    BothEligible(OpenaiChat, a, b);
    BothEligible(OpenaiChat, b, a);
  }

  /** Two eligible channels are asked in their order. */
  lemma BothEligible(kind: Kind, a: Channel, b: Channel)
    requires ChannelOk(kind, a) && ChannelOk(kind, b)
    ensures Candidates(kind, [a, b], 0) == [0, 1]
  {
    hide ChannelOk, At;
    AtZero();
    EligibleStep(kind, [a, b], 0, 0);
    EligibleStep(kind, [a, b], 0, 1);
    assert EligibleUpTo(kind, [a, b], 0, 0) == [];
  }

  lemma AtZero()
    ensures At(2, 0, 0) == 0 && At(2, 0, 1) == 1
  {
  }

  /** The schedule leaves no choice: any two loops that keep it ask the same channels and, with
      the same memory of failures, reply the same. */
  lemma ScheduledUnique(candidates: seq<nat>, ask: nat -> Outcome,
                        remember: Outcome -> Failure, remember': Outcome -> Failure,
                        attempts: seq<nat>, attempts': seq<nat>, reply: Reply, reply': Reply)
    requires Scheduled(candidates, ask, remember, attempts, reply)
    requires Scheduled(candidates, ask, remember', attempts', reply')
    ensures attempts == attempts'
    ensures reply.Relayed? == reply'.Relayed? && (!reply.Relayed? ==> reply == reply')
    ensures (forall o :: remember(o) == remember'(o)) ==> reply == reply'
  {
    if |attempts| < |attempts'| {
      LongerSchedule(candidates, ask, remember, attempts, reply, attempts');
    } else if |attempts'| < |attempts| {
      LongerSchedule(candidates, ask, remember', attempts', reply', attempts);
    }
  }

  lemma LongerSchedule(candidates: seq<nat>, ask: nat -> Outcome, remember: Outcome -> Failure,
                       attempts: seq<nat>, reply: Reply, longer: seq<nat>)
    requires Scheduled(candidates, ask, remember, attempts, reply)
    requires longer <= candidates && |attempts| < |longer|
    ensures attempts != [] && longer[|attempts| - 1] == attempts[|attempts| - 1]
    ensures Succeeds(ask(longer[|attempts| - 1]))
  {
  }

  /** Steps from the start pointer to index `i`. */
  function Distance(n: nat, start: nat, i: nat): nat
    requires start < n
  {
    if i >= start then i - start else i + n - start
  }

  /** A candidate is exactly an enabled channel of the kind's upstream that has a key, and each
      occurs once, ordered by how far the pointer has to move to reach it. */
  lemma CandidatesExact(kind: Kind, channels: seq<Channel>, start: nat)
    requires start < |channels|
    ensures
      var c, n := Candidates(kind, channels, start), |channels|;
      var upstream := if kind == AnthropicMessages then "anthropic" else "openai_compatible";
      && (forall i: nat :: i in c <==>
            i < n && channels[i].enabled && channels[i].kind == upstream && channels[i].apiKey != "")
      && (forall i | 0 <= i < |c| :: c[i] < n)
      && (forall i, j | 0 <= i < j < |c| :: Distance(n, start, c[i]) < Distance(n, start, c[j]))
      && (forall i | 0 <= i < n :: Distance(n, start, i) == (i + n - start) % n)
  {
    EligibleExact(kind, channels, start, |channels|);
    forall i | 0 <= i < |channels| ensures Distance(|channels|, start, i) == (i + |channels| - start) % |channels| {
      DistanceIsRemainder(|channels|, start, i);
    }
  }

  lemma DistanceIsRemainder(n: nat, start: nat, i: nat)
    requires start < n && i < n
    ensures Distance(n, start, i) == (i + n - start) % n
  {
  }

  lemma {:induction false} EligibleExact(kind: Kind, channels: seq<Channel>, start: nat, k: nat)
    requires start < |channels| && k <= |channels|
    ensures var n, c := |channels|, EligibleUpTo(kind, channels, start, k);
            && (forall i: nat :: i in c <==> i < n && Distance(n, start, i) < k && ChannelOk(kind, channels[i]))
            && (forall i | 0 <= i < |c| :: c[i] < n && Distance(n, start, c[i]) < k)
            && (forall i, j | 0 <= i < j < |c| :: Distance(n, start, c[i]) < Distance(n, start, c[j]))
  {
    if k > 0 {
      hide At, Distance, ChannelOk, EligibleUpTo;
      EligibleExact(kind, channels, start, k - 1);
      EligibleStep(kind, channels, start, k - 1);
      DistanceAt(|channels|, start, k - 1);
    }
  }

  lemma DistanceAt(n: nat, start: nat, k: nat)
    requires start < n && k < n
    ensures forall i: nat | i < n :: Distance(n, start, i) == k <==> i == At(n, start, k)
    ensures At(n, start, k) < n && Distance(n, start, At(n, start, k)) == k
  {
  }

  lemma EligibleStep(kind: Kind, channels: seq<Channel>, start: nat, k: nat)
    requires start < |channels| && k < |channels|
    ensures At(|channels|, start, k) < |channels|
    ensures EligibleUpTo(kind, channels, start, k + 1) ==
              EligibleUpTo(kind, channels, start, k) +
              (if ChannelOk(kind, channels[At(|channels|, start, k)]) then [At(|channels|, start, k)] else [])
  {
    var n := |channels|;
    RotationAt(n, start, k + 1);
    assert Rotation(n, start, k + 1)[..k] == Rotation(n, start, k);
  }

  lemma {:induction false} EligiblePrefix(kind: Kind, channels: seq<Channel>, start: nat, k: nat)
    requires start < |channels| && k <= |channels|
    ensures EligibleUpTo(kind, channels, start, k) <= Candidates(kind, channels, start)
    decreases |channels| - k
  {
    if k < |channels| {
      EligibleStep(kind, channels, start, k);
      EligiblePrefix(kind, channels, start, k + 1);
    }
  }

  // ----- the state of a loop after `k` turns without success -----

  ghost predicate SoFar(kind: Kind, channels: seq<Channel>, start: nat, k: nat, ask: nat -> Outcome,
                        remember: Outcome -> Failure, attempts: seq<nat>, last: Failure)
  {
    && start < |channels| && k <= |channels|
    && attempts == EligibleUpTo(kind, channels, start, k)
    && (forall i | 0 <= i < |attempts| :: attempts[i] < |channels| && !Succeeds(ask(attempts[i])))
    && (attempts != [] ==> last == remember(ask(attempts[|attempts| - 1])))
  }

  /** The next turn, at the index under the pointer: skip it, fail on it, or win. */
  lemma TurnStep(kind: Kind, channels: seq<Channel>, start: nat, k: nat, ask: nat -> Outcome,
             remember: Outcome -> Failure, attempts: seq<nat>, last: Failure)
    requires SoFar(kind, channels, start, k, ask, remember, attempts, last) && k < |channels|
    ensures
      var i := At(|channels|, start, k);
      && i < |channels|
      && (!ChannelOk(kind, channels[i]) ==> SoFar(kind, channels, start, k + 1, ask, remember, attempts, last))
      && (ChannelOk(kind, channels[i]) && !Succeeds(ask(i)) ==>
            SoFar(kind, channels, start, k + 1, ask, remember, attempts + [i], remember(ask(i))))
      && (ChannelOk(kind, channels[i]) && Succeeds(ask(i)) ==>
            Scheduled(Candidates(kind, channels, start), ask, remember, attempts + [i], Won(i)))
  {
    hide ChannelOk, EligibleUpTo;
    EligibleStep(kind, channels, start, k);
    EligiblePrefix(kind, channels, start, k + 1);
  }

  lemma Exhausted(kind: Kind, channels: seq<Channel>, start: nat, ask: nat -> Outcome,
                  remember: Outcome -> Failure, attempts: seq<nat>, last: Failure)
    requires SoFar(kind, channels, start, |channels|, ask, remember, attempts, last)
    ensures Scheduled(Candidates(kind, channels, start), ask, remember, attempts,
                      if attempts == [] then NoChannel else Relayed(last))
  {
    hide EligibleUpTo;
  }

  // ---------------------------------------------------------------------------------
  // The three loops
  // ---------------------------------------------------------------------------------

  /** A channel group as it is stored. */
  datatype StoredGroup = StoredGroup(enabled: bool, channels: seq<Channel>, pointer: int)

  predicate Usable(stored: Option<StoredGroup>) {
    stored.Some? && stored.value.enabled && stored.value.channels != []
  }

  /** Where the rotation starts: at the stored position, or at 0 if that is none. */
  function StartOf(group: StoredGroup): nat {
    if 0 <= group.pointer < |group.channels| then group.pointer else 0
  }

  class ChannelGroup {
    const channels: seq<Channel>
    var pointer: int

    constructor (channels: seq<Channel>, pointer: int)
      ensures this.channels == channels && this.pointer == pointer
    {
      this.channels := channels;
      this.pointer := pointer;
    }

    method NextChannel()
      modifies this
      ensures 0 <= old(pointer) < |channels| ==>
                pointer == (if old(pointer) + 1 == |channels| then 0 else old(pointer) + 1)
      ensures channels == [] ==> pointer == 0
    {
      pointer := (pointer + 1) % (|channels| + (if channels == [] then 1 else 0));
    }
  }

  /** The parts of a proxied request the loops write. */
  class Gateway {
    const kind: Kind
    const billNonStream: bool
    const usageOf: string -> StreamPump.Usage // what `finalize` reads out of a successful body
    var channelId: int
    var statusCode: int
    var usage: StreamPump.Usage

    constructor (kind: Kind, billNonStream: bool, usageOf: string -> StreamPump.Usage)
      ensures this.kind == kind && this.billNonStream == billNonStream && this.usageOf == usageOf
      ensures channelId == 0 && statusCode == 0 && usage == NO_USAGE
    {
      this.kind, this.billNonStream, this.usageOf := kind, billNonStream, usageOf;
      channelId, statusCode, usage := 0, 0, NO_USAGE;
    }

    /** A missing, disabled or empty group is refused; a stray pointer starts at 0. */
    method LoadChannelGroup(stored: Option<StoredGroup>) returns (group: ChannelGroup?)
      ensures group == null <==> stored.None? || !stored.value.enabled || stored.value.channels == []
      ensures group == null <==> !Usable(stored)
      ensures group != null ==>
                && fresh(group) && group.channels == stored.value.channels
                && group.pointer == StartOf(stored.value) < |group.channels|
                && (0 <= stored.value.pointer < |group.channels| ==> group.pointer == stored.value.pointer)
                && (!(0 <= stored.value.pointer < |group.channels|) ==> group.pointer == 0)
    {
      if stored.None? || !stored.value.enabled || stored.value.channels == [] {
        return null;
      }
      group := new ChannelGroup(stored.value.channels, stored.value.pointer);
      if group.pointer < 0 || group.pointer >= |group.channels| {
        group.pointer := 0;
      }
    }

    /** What an all-failed or refused request leaves: the last asked channel and its status. */
    ghost predicate LeftBy(channels: seq<Channel>, ask: nat -> Outcome, remember: Outcome -> Failure, attempts: seq<nat>)
      reads this
    {
      attempts != [] ==>
        && attempts[|attempts| - 1] < |channels|
        && channelId == channels[attempts[|attempts| - 1]].id
        && statusCode == remember(ask(attempts[|attempts| - 1])).status
    }

    /** A won answer that is not billed does not overwrite what the attempt before it left. */
    ghost predicate AsLeftBefore(channels: seq<Channel>, ask: nat -> Outcome, attempts: seq<nat>, id: int, status: int)
      reads this
    {
      && attempts != []
      && (|attempts| == 1 ==> channelId == id && statusCode == status)
      && LeftBy(channels, ask, VerboseFailure, attempts[..|attempts| - 1])
    }

    method Run(group: ChannelGroup, ask: nat -> Outcome) returns (reply: Reply, ghost attempts: seq<nat>)
      requires group.channels != [] && 0 <= group.pointer < |group.channels|
      modifies this, group
      ensures Scheduled(Candidates(kind, group.channels, old(group.pointer)), ask, PlainFailure, attempts, reply)
      ensures reply.Won? ==> ask(reply.index).Answered? && usage == usageOf(ask(reply.index).body)
      ensures !reply.Won? ==> usage == old(usage)
      ensures reply == NoChannel ==> channelId == old(channelId) && statusCode == old(statusCode)
      ensures LeftBy(group.channels, ask, PlainFailure, attempts)
    {
      hide SoFar, Scheduled, ChannelOk, Candidates;
      var start := group.pointer;
      var last := Failure(502, UPSTREAM_FAILED);
      var tried := false;
      ghost var n := |group.channels|;
      ghost var k: nat := 0;
      attempts := [];
      Begin(kind, group.channels, start, ask, PlainFailure, last);
      while true
        invariant k < n && group.pointer == At(n, start, k)
        invariant SoFar(kind, group.channels, start, k, ask, PlainFailure, attempts, last)
        invariant tried <==> attempts != []
        invariant LeftBy(group.channels, ask, PlainFailure, attempts)
        invariant usage == old(usage)
        invariant attempts == [] ==> channelId == old(channelId) && statusCode == old(statusCode)
        decreases n - k
      {
        var index := group.pointer;
        var channel := group.channels[index];
        TurnStep(kind, group.channels, start, k, ask, PlainFailure, attempts, last);
        if ChannelOk(kind, channel) {
          tried := true;
          attempts := attempts + [index];
          var executed := ask(index);
          if executed.Answered? && executed.status < 400 {
            channelId := channel.id;
            statusCode := executed.status;
            usage := usageOf(executed.body);
            return Won(index), attempts;
          }
          if executed.Answered? {
            last := Failure(executed.status, executed.body);
            channelId := channel.id;
            statusCode := executed.status;
          } else {
            last := Failure(502, UPSTREAM_FAILED);
            channelId := channel.id;
            statusCode := 502;
          }
        }
        group.NextChannel();
        k := k + 1;
        if group.pointer == start {
          break;
        }
      }
      Exhausted(kind, group.channels, start, ask, PlainFailure, attempts, last);
      if !tried {
        return NoChannel, attempts;
      }
      return Relayed(last), attempts;
    }

    method RunStream(group: ChannelGroup, open: nat -> Outcome) returns (reply: Reply, ghost attempts: seq<nat>)
      requires group.channels != [] && 0 <= group.pointer < |group.channels|
      modifies this, group
      ensures Scheduled(Candidates(kind, group.channels, old(group.pointer)), open, PlainFailure, attempts, reply)
      ensures usage == old(usage) // the stream's usage arrives with its events
      ensures reply == NoChannel ==> channelId == old(channelId) && statusCode == old(statusCode)
      ensures LeftBy(group.channels, open, PlainFailure, attempts)
    {
      hide SoFar, Scheduled, ChannelOk, Candidates;
      var start := group.pointer;
      var last := Failure(502, UPSTREAM_FAILED);
      var tried := false;
      ghost var n := |group.channels|;
      ghost var k: nat := 0;
      attempts := [];
      Begin(kind, group.channels, start, open, PlainFailure, last);
      while true
        invariant k < n && group.pointer == At(n, start, k)
        invariant SoFar(kind, group.channels, start, k, open, PlainFailure, attempts, last)
        invariant tried <==> attempts != []
        invariant LeftBy(group.channels, open, PlainFailure, attempts)
        invariant usage == old(usage)
        invariant attempts == [] ==> channelId == old(channelId) && statusCode == old(statusCode)
        decreases n - k
      {
        var index := group.pointer;
        var channel := group.channels[index];
        TurnStep(kind, group.channels, start, k, open, PlainFailure, attempts, last);
        if ChannelOk(kind, channel) {
          tried := true;
          attempts := attempts + [index];
          var executed := open(index);
          if executed.Answered? && executed.status < 400 {
            channelId := channel.id;
            statusCode := executed.status;
            return Won(index), attempts;
          }
          if executed.Thrown? {
            last := Failure(502, UPSTREAM_FAILED);
            channelId := channel.id;
            statusCode := 502;
          } else {
            last := Failure(executed.status, executed.body); // the drained body
            channelId := channel.id;
            statusCode := executed.status;
          }
        }
        group.NextChannel();
        k := k + 1;
        if group.pointer == start {
          break;
        }
      }
      Exhausted(kind, group.channels, start, open, PlainFailure, attempts, last);
      if !tried {
        return NoChannel, attempts;
      }
      return Relayed(last), attempts;
    }

    /** `streaming` tells a streamed answer from a whole one. */
    method Handle(group: ChannelGroup, ask: nat -> Outcome, streamWanted: bool)
      returns (reply: Reply, streaming: bool, ghost attempts: seq<nat>)
      requires group.channels != [] && 0 <= group.pointer < |group.channels|
      modifies this, group
      ensures Scheduled(Candidates(kind, group.channels, old(group.pointer)), ask, VerboseFailure, attempts, reply)
      ensures streaming <==> reply.Won? && streamWanted && ask(reply.index).Answered? && ask(reply.index).sse
      ensures reply.Won? && !streaming && billNonStream ==>
                && ask(reply.index).Answered? && usage == usageOf(ask(reply.index).body)
                && reply.index < |group.channels| && channelId == group.channels[reply.index].id
      ensures streaming ==> reply.index < |group.channels| && channelId == group.channels[reply.index].id
      ensures reply.Won? && !streaming && !billNonStream ==>
                AsLeftBefore(group.channels, ask, attempts, old(channelId), old(statusCode))
      ensures !(reply.Won? && !streaming && billNonStream) ==> usage == old(usage)
      ensures reply == NoChannel ==> channelId == old(channelId) && statusCode == old(statusCode)
      ensures !reply.Won? ==> LeftBy(group.channels, ask, VerboseFailure, attempts)
    {
      hide SoFar, Scheduled, ChannelOk, Candidates;
      var start := group.pointer;
      var last := Failure(502, UPSTREAM_FAILED);
      var tried := false;
      ghost var n := |group.channels|;
      ghost var k: nat := 0;
      attempts, streaming := [], false;
      Begin(kind, group.channels, start, ask, VerboseFailure, last);
      while true
        invariant k < n && group.pointer == At(n, start, k)
        invariant SoFar(kind, group.channels, start, k, ask, VerboseFailure, attempts, last)
        invariant tried <==> attempts != []
        invariant LeftBy(group.channels, ask, VerboseFailure, attempts)
        invariant usage == old(usage) && !streaming
        invariant attempts == [] ==> channelId == old(channelId) && statusCode == old(statusCode)
        decreases n - k
      {
        var index := group.pointer;
        var channel := group.channels[index];
        TurnStep(kind, group.channels, start, k, ask, VerboseFailure, attempts, last);
        if !ChannelOk(kind, channel) {
          group.NextChannel();
          k := k + 1;
          if group.pointer != start {
            continue;
          }
          break;
        }
        tried := true;
        ghost var before := attempts;
        attempts := attempts + [index];
        var attempt := ask(index);
        var attemptFailed, stream := false, false;
        if attempt.Thrown? {
          last := Failure(502, ErrorBody(attempt.message));
          channelId := channel.id;
          statusCode := 502;
          attemptFailed := true;
        } else if streamWanted {
          if attempt.status >= 400 {
            last := Failure(attempt.status, attempt.body);
            channelId := channel.id;
            statusCode := attempt.status;
            attemptFailed := true;
          } else if attempt.sse {
            stream := true;
          }
        } else if attempt.status >= 400 {
          last := Failure(attempt.status, attempt.body);
          channelId := channel.id;
          statusCode := attempt.status;
          attemptFailed := true;
        }
        if attemptFailed {
          group.NextChannel();
          k := k + 1;
          if group.pointer != start {
            continue;
          }
          break;
        }
        if stream {
          channelId := channel.id;
          statusCode := attempt.status;
          return Won(index), true, attempts;
        }
        if !billNonStream {
          assert attempts[..|attempts| - 1] == before;
          return Won(index), false, attempts;
        }
        channelId := channel.id;
        statusCode := attempt.status;
        usage := usageOf(attempt.body);
        return Won(index), false, attempts;
      }
      Exhausted(kind, group.channels, start, ask, VerboseFailure, attempts, last);
      if !tried {
        return NoChannel, false, attempts;
      }
      return Relayed(last), false, attempts;
    }
  }

  lemma Begin(kind: Kind, channels: seq<Channel>, start: nat, ask: nat -> Outcome,
              remember: Outcome -> Failure, last: Failure)
    requires start < |channels|
    ensures SoFar(kind, channels, start, 0, ask, remember, [], last)
  {
  }
}
