/**
 Two retry loops that share one limit R: the hub client posts a send up to max(1, R) times, and
 the retrier re-sends a notification until its log row says it has been attempted R times.
*/
module HubRetry {
  import opened Domain
  import opened Ledger
  import Machine
  import EscalationEngine

  /** One HTTP post: an error (5xx, transport, bad body) or a decoded reply. */
  datatype Post = PostError | PostReply(skipped: bool)

  class HubClient {
    const enabled: bool
    const maxRetries: int
    /** The hub's behaviour: what the k-th post meets, and whether the caller's context is done
        by the time the wait after it is over. */
    const hub: nat -> Post
    const cancelled: nat -> bool
    var posts: nat

    constructor (enabled: bool, maxRetries: int, hub: nat -> Post, cancelled: nat -> bool)
      ensures this.enabled == enabled && this.maxRetries == maxRetries && this.hub == hub && this.cancelled == cancelled
      ensures posts == 0
    {
      this.enabled, this.maxRetries, this.hub, this.cancelled := enabled, maxRetries, hub, cancelled;
      posts := 0;
    }

    /** A send makes the posts from `from` up to `to`: none when the client is disabled; otherwise at
        least one and at most max(1, R), each after an error and a wait that was not cancelled,
        and it stops at the first reply, after the last attempt, or when the wait is cancelled. */
    ghost predicate Posted(from: nat, to: nat) {
      if !enabled then to == from
      else
        && from < to <= from + (if maxRetries < 1 then 1 else maxRetries)
        && (forall k :: from <= k < to - 1 ==> hub(k).PostError? && !cancelled(k))
        && (hub(to - 1).PostReply? || cancelled(to - 1) || to == from + (if maxRetries < 1 then 1 else maxRetries))
    }

    /** A disabled client answers "skipped" without a post. An enabled one posts until the first
        reply, at most max(1, R) times; it fails only when every post failed, and then it has
        used them all or was cancelled. */
    method SendEvent() returns (r: SendResult)
      modifies this`posts
      ensures Posted(old(posts), posts)
      ensures !enabled ==> r == Replied(true)
      ensures enabled ==>
        r == match hub(posts - 1) case PostError => SendFailed case PostReply(skipped) => Replied(skipped)
    {
      if !enabled {
        return Replied(true);
      }
      var maxAttempts := maxRetries;
      if maxAttempts <= 0 {
        maxAttempts := 1;
      }
      var attempt := 0;
      while attempt < maxAttempts
        invariant 0 <= attempt <= maxAttempts && posts == old(posts) + attempt
        invariant forall k :: old(posts) <= k < posts ==> hub(k).PostError?
        invariant forall k :: old(posts) <= k < posts - 1 ==> !cancelled(k)
      {
        if attempt > 0 && cancelled(posts - 1) {
          return SendFailed;
        }
        var reply := hub(posts);
        posts := posts + 1;
        if reply.PostReply? {
          return Replied(reply.skipped);
        }
        attempt := attempt + 1;
      }
      r := SendFailed;
    }
  }

  // ---------------------------------------------------------------- one notification

  /** A notification's log row, and what was really done for it: the sends, their posts, and how
      many log updates after a send did not take effect. */
  datatype Tracked = Tracked(status: NotifStatus, attempts: nat, sends: nat, posts: nat, lost: nat)

  const NEW := Tracked(NotifPending, 0, 0, 0, 0)

  /** The predicate of ListPendingRetries. */
  predicate Eligible(n: Tracked, r: int) {
    (n.status == NotifFailed || n.status == NotifRetrying) && n.attempts < r
  }

  /** After a send: the row says `status` and `attempts` if its update took effect. */
  function Sent(n: Tracked, status: NotifStatus, attempts: nat, posts: nat, took: bool): Tracked {
    if took then Tracked(status, attempts, n.sends + 1, n.posts + posts, n.lost)
    else n.(sends := n.sends + 1, posts := n.posts + posts, lost := n.lost + 1)
  }

  /** The engine's one send. */
  function FirstSent(n: Tracked, result: SendResult, posts: nat, took: bool): Tracked {
    Sent(n, AfterFirstSend(result), 1, posts, took)
  }

  /** retryOne. A reply counts as sent even when it says "skipped". */
  function Retried(n: Tracked, r: int, result: SendResult, posts: nat, took: bool): Tracked {
    var attempts := n.attempts + 1;
    var status := if result.Replied? then NotifSent else if attempts >= r then NotifFailed else NotifRetrying;
    Sent(n, status, attempts, posts, took)
  }

  ghost predicate RetriedSomehow(n: Tracked, n': Tracked, r: int) {
    exists result, posts: nat, took :: posts <= AtLeastOne(r) && n' == Retried(n, r, result, posts, took)
  }

  /** One pass of the retrier over the log: every eligible row is retried once. */
  ghost predicate Pass(log: seq<Tracked>, log': seq<Tracked>, r: int) {
    && |log'| == |log|
    && forall i :: 0 <= i < |log| ==>
         if Eligible(log[i], r) then RetriedSomehow(log[i], log'[i], r) else log'[i] == log[i]
  }

  /** The posts made for all the notifications of a log. */
  function AllPosts(log: seq<Tracked>): nat {
    if log == [] then 0 else AllPosts(log[..|log| - 1]) + log[|log| - 1].posts
  }

  lemma {:induction false} OneRowPosts(log: seq<Tracked>, n: nat, row: Tracked)
    requires n < |log|
    ensures AllPosts(log[n := row]) == AllPosts(log) - log[n].posts + row.posts
  {
    var k := |log| - 1;
    if n < k {
      OneRowPosts(log[..k], n, row);
      assert log[n := row][..k] == log[..k][n := row];
    } else {
      assert log[n := row][..k] == log[..k];
    }
  }

  class Retrier {
    const client: HubClient
    const maxRetries: int
    /** Whether the k-th update of the log takes effect. */
    const takes: nat -> bool
    var log: seq<Tracked>
    var updates: nat

    constructor (client: HubClient, log: seq<Tracked>, takes: nat -> bool)
      ensures this.client == client && this.log == log && this.takes == takes
      ensures maxRetries == client.maxRetries && updates == 0
    {
      this.client, this.log, this.takes, updates := client, log, takes, 0;
      maxRetries := client.maxRetries;
    }

    /** `row` is sent again with the posts from `from` up to `to`, and its log update `took` effect
        or not: then it says sent if the last post met a reply or the client is disabled, else
        failed with its attempts used up and retrying without. */
    ghost predicate Resent(row: Tracked, row': Tracked, from: nat, to: nat, took: bool) {
      && client.Posted(from, to)
      && row'.sends == row.sends + 1 && row'.posts == row.posts + (to - from)
      && if took then
           && row'.lost == row.lost && row'.attempts == row.attempts + 1
           && row'.status == if !client.enabled || client.hub(to - 1).PostReply? then NotifSent
                             else if row.attempts + 1 >= maxRetries then NotifFailed
                             else NotifRetrying
         else row'.lost == row.lost + 1 && row'.attempts == row.attempts && row'.status == row.status
    }

    /** A new row is sent for the first time: then it says failed if the last post met an error,
        pending for a reply that says "skipped" and for a disabled client, and sent otherwise. */
    ghost predicate SentAtFirst(row': Tracked, from: nat, to: nat, took: bool) {
      && client.Posted(from, to)
      && row'.sends == 1 && row'.posts == to - from
      && if took then
           && row'.lost == 0 && row'.attempts == 1
           && row'.status == if !client.enabled then NotifPending
                             else match client.hub(to - 1)
                                  case PostError => NotifFailed
                                  case PostReply(skipped) => if skipped then NotifPending else NotifSent
         else row'.lost == 1 && row'.attempts == 0 && row'.status == NotifPending
    }

    /** The rows the retrier takes up, oldest first: failed or retrying, and attempted fewer than R
        times. */
    ghost predicate Lists(log: seq<Tracked>, pending: seq<nat>) {
      && (forall i, j :: 0 <= i < j < |pending| ==> pending[i] < pending[j])
      && (forall n :: n in pending <==> 0 <= n < |log| && log[n].status in {NotifFailed, NotifRetrying} && log[n].attempts < maxRetries)
    }

    method ListPendingRetries() returns (pending: seq<nat>)
      ensures Lists(log, pending)
    {
      pending := [];
      for n := 0 to |log|
        invariant forall i :: 0 <= i < |pending| ==> pending[i] < n && Eligible(log[pending[i]], maxRetries)
        invariant forall i, j :: 0 <= i < j < |pending| ==> pending[i] < pending[j]
        invariant forall k :: 0 <= k < n && Eligible(log[k], maxRetries) ==> k in pending
      {
        if Eligible(log[n], maxRetries) {
          pending := pending + [n];
        }
      }
    }

    method RetryOne(n: nat)
      requires n < |log| && client.maxRetries == maxRetries
      modifies this`log, this`updates, client`posts
      ensures |log| == |old(log)|
      ensures Resent(old(log)[n], log[n], old(client.posts), client.posts, takes(old(updates))) && updates == old(updates) + 1
      ensures RetriedSomehow(old(log)[n], log[n], maxRetries)
      ensures log == old(log)[n := log[n]]
    {
      var row, before := log[n], client.posts;
      var newAttempts := row.attempts + 1;
      var result := client.SendEvent();
      ghost var made := client.posts - before;
      var status := NotifSent;
      if result.SendFailed? {
        status := NotifRetrying;
        if newAttempts >= maxRetries {
          status := NotifFailed;
        }
      }
      var took := takes(updates);
      updates := updates + 1;
      log := log[n := Sent(row, status, newAttempts, client.posts - before, took)];
      assert log[n] == Retried(row, maxRetries, result, made, took);
    }

    /** sendViaHub, on the row just created for the notification. */
    method SendFirst(n: nat)
      requires n < |log| && log[n] == NEW && client.maxRetries == maxRetries
      modifies this`log, this`updates, client`posts
      ensures |log| == |old(log)|
      ensures SentAtFirst(log[n], old(client.posts), client.posts, takes(old(updates))) && updates == old(updates) + 1
      ensures Stepped(old(log), log, FirstSend(n), maxRetries)
      ensures log == old(log)[n := log[n]]
    {
      hide Stepped;
      var before := client.posts;
      var result := client.SendEvent();
      var status := NotifFailed;
      if result.Replied? {
        status := if result.skipped then NotifPending else NotifSent;
      }
      var took := takes(updates);
      updates := updates + 1;
      FirstStep(log, n, result, client.posts - before, took, maxRetries);
      log := log[n := Sent(log[n], status, 1, client.posts - before, took)];
    }

    /** A pass: the rows it lists are sent again one after the other, and no other row changes. The
        k-th of them is sent with the posts from `marks[k]` up to `marks[k + 1]`. */
    method RetryPending() returns (ghost pending: seq<nat>, ghost marks: seq<nat>)
      requires client.maxRetries == maxRetries
      modifies this`log, this`updates, client`posts
      ensures Lists(old(log), pending) && |marks| == |pending| + 1
      ensures marks[0] == old(client.posts) && marks[|pending|] == client.posts
      ensures |log| == |old(log)| && forall k :: 0 <= k < |pending| ==> pending[k] < |log|
      ensures forall k :: 0 <= k < |pending| ==>
        Resent(old(log)[pending[k]], log[pending[k]], marks[k], marks[k + 1], takes(old(updates) + k))
      ensures forall i :: 0 <= i < |log| && i !in pending ==> log[i] == old(log)[i]
      ensures AllPosts(log) - AllPosts(old(log)) == client.posts - old(client.posts)
      ensures updates == old(updates) + |pending|
      ensures Pass(old(log), log, maxRetries)
    {
      hide Resent, RetriedSomehow, AllPosts, Lists, Gone, Pass;
      var list := ListPendingRetries();
      pending, marks := list, [client.posts];
      ListsApart(log, list);
      GoneNowhere(log, list, marks, updates);
      for k := 0 to |list|
        invariant |log| == |old(log)| && updates == old(updates) + k && |marks| == k + 1
        invariant marks[0] == old(client.posts) && marks[k] == client.posts
        invariant AllPosts(log) - AllPosts(old(log)) == client.posts - old(client.posts)
        invariant Gone(old(log), log, list, marks, k, old(updates))
      {
        ghost var before, from := log, client.posts;
        RetryOne(list[k]);
        OneRowPosts(before, list[k], log[list[k]]);
        ResentPosts(before[list[k]], log[list[k]], from, client.posts, takes(old(updates) + k));
        GoneOn(old(log), before, log, list, marks, k, old(updates), client.posts);
        marks := marks + [client.posts];
      }
      GoneThrough(old(log), log, list, marks, old(updates));
    }

    /** The first `k` listed rows are sent again, and the others as they were. */
    ghost predicate Gone(log0: seq<Tracked>, log1: seq<Tracked>, list: seq<nat>, marks: seq<nat>, k: nat, u: nat) {
      && |log1| == |log0| && k <= |list| && |marks| == k + 1 && (forall j :: 0 <= j < |list| ==> list[j] < |log0|)
      && (forall i :: 0 <= i < |log0| && i !in list[..k] ==> log1[i] == log0[i])
      && (forall j :: 0 <= j < k ==>
            && Resent(log0[list[j]], log1[list[j]], marks[j], marks[j + 1], takes(u + j))
            && RetriedSomehow(log0[list[j]], log1[list[j]], maxRetries))
    }

    lemma ListsApart(log0: seq<Tracked>, list: seq<nat>)
      requires Lists(log0, list)
      ensures forall j :: 0 <= j < |list| ==> list[j] < |log0|
      ensures forall i, j :: 0 <= i < j < |list| ==> list[i] < list[j]
    {
      assert forall j :: 0 <= j < |list| ==> list[j] in list;
    }

    lemma GoneNowhere(log0: seq<Tracked>, list: seq<nat>, marks: seq<nat>, u: nat)
      requires |marks| == 1 && forall j :: 0 <= j < |list| ==> list[j] < |log0|
      ensures Gone(log0, log0, list, marks, 0, u)
    {
    }

    lemma GoneOn(
      log0: seq<Tracked>, log1: seq<Tracked>, log2: seq<Tracked>, list: seq<nat>, marks: seq<nat>, k: nat, u: nat, to: nat)
      requires Gone(log0, log1, list, marks, k, u) && k < |list| && forall i, j :: 0 <= i < j < |list| ==> list[i] < list[j]
      requires |log2| == |log1| && log2 == log1[list[k] := log2[list[k]]]
      requires Resent(log1[list[k]], log2[list[k]], marks[k], to, takes(u + k))
      requires RetriedSomehow(log1[list[k]], log2[list[k]], maxRetries)
      ensures Gone(log0, log2, list, marks + [to], k + 1, u)
    {
      hide Resent, RetriedSomehow;
      assert list[k] !in list[..k];
      assert list[..k + 1] == list[..k] + [list[k]];
    }

    lemma GoneThrough(log0: seq<Tracked>, log1: seq<Tracked>, list: seq<nat>, marks: seq<nat>, u: nat)
      requires Lists(log0, list) && Gone(log0, log1, list, marks, |list|, u)
      ensures Pass(log0, log1, maxRetries)
      ensures |log1| == |log0| && forall k :: 0 <= k < |list| ==> list[k] < |log1|
      ensures forall k :: 0 <= k < |list| ==>
        Resent(log0[list[k]], log1[list[k]], marks[k], marks[k + 1], takes(u + k))
      ensures forall i :: 0 <= i < |log1| && i !in list ==> log1[i] == log0[i]
    {
      hide Resent, RetriedSomehow;
      assert list[..|list|] == list;
      forall i | 0 <= i < |log1|
        ensures if Eligible(log0[i], maxRetries) then RetriedSomehow(log0[i], log1[i], maxRetries) else log1[i] == log0[i]
      {
        assert Eligible(log0[i], maxRetries) <==> i in list;
      }
    }

    lemma ResentPosts(row: Tracked, row': Tracked, from: nat, to: nat, took: bool)
      requires Resent(row, row', from, to, took)
      ensures to >= from && row'.posts == row.posts + (to - from)
    {
    }
  }

  // ---------------------------------------------------------------- whole runs

  datatype Step = Create | FirstSend(n: nat) | RetryPass

  /** One step of the log: the engine adds a row, the engine makes its one send, or the retrier
      passes. The log update after a send may be lost. */
  ghost predicate Stepped(log: seq<Tracked>, log': seq<Tracked>, s: Step, r: int) {
    match s
    case Create => log' == log + [NEW]
    case FirstSend(n) =>
      && n < |log| && log[n] == NEW
      && exists result, posts: nat, took :: posts <= AtLeastOne(r) && log' == log[n := FirstSent(NEW, result, posts, took)]
    case RetryPass => Pass(log, log', r)
  }

  lemma FirstStep(log: seq<Tracked>, n: nat, result: SendResult, posts: nat, took: bool, r: int)
    requires n < |log| && log[n] == NEW && posts <= AtLeastOne(r)
    ensures Stepped(log, log[n := FirstSent(NEW, result, posts, took)], FirstSend(n), r)
  {
    hide Pass;
  }

  ghost predicate History(logs: seq<seq<Tracked>>, steps: seq<Step>, r: int) {
    && |logs| == |steps| + 1 && logs[0] == []
    && forall k :: 0 <= k < |steps| ==> Stepped(logs[k], logs[k + 1], steps[k], r)
  }

  /** The first send is the one the engine makes: the row it leaves is the notification that
      executeNotify leaves in the log when nothing fails. */
  lemma FirstSendIsActed(t: Tables, r: Rule, s: Machine.Snapshot, now: int, result: SendResult, posts: nat)
    requires r.action == Notify && !HasNotice(t, r.id, s.id)
    ensures var row := FirstSent(NEW, result, posts, true);
      && EscalationEngine.Acted(t, r, s, now, result).notices == t.notices + [Notice(r.id, s.id, row.status, row.attempts)]
      && EscalationEngine.Acted(t, r, s, now, result).sends == t.sends + [(r.id, s.id)] && row.sends == 1
  {
  }

  // ---------------------------------------------------------------- bounds

  /** Only a row that was sent and logged is in the retrier's hands. */
  predicate Bounded(n: Tracked, r: int) {
    && n.sends == n.attempts + n.lost && n.attempts <= AtLeastOne(r)
    && n.posts <= n.sends * AtLeastOne(r)
    && (n.sends == 0 ==> n == NEW)
    && (n.attempts == 0 ==> n.status == NotifPending)
    && (n.status == NotifRetrying ==> n.attempts < r)
  }

  lemma PostsGrow(sends: nat, m: nat, posts: nat, more: nat)
    requires posts <= sends * m && more <= m
    ensures posts + more <= (sends + 1) * m
  {
  }

  lemma RetryBounded(n: Tracked, n': Tracked, r: int)
    requires Bounded(n, r) && Eligible(n, r) && RetriedSomehow(n, n', r)
    ensures Bounded(n', r) && n'.sends == n.sends + 1
  {
    var result, posts: nat, took :| posts <= AtLeastOne(r) && n' == Retried(n, r, result, posts, took);
    PostsGrow(n.sends, AtLeastOne(r), n.posts, posts);
  }

  lemma StepBounded(log: seq<Tracked>, log': seq<Tracked>, s: Step, r: int)
    requires Stepped(log, log', s, r) && forall i :: 0 <= i < |log| ==> Bounded(log[i], r)
    ensures |log| <= |log'| && forall i :: 0 <= i < |log'| ==> Bounded(log'[i], r)
    ensures forall i :: 0 <= i < |log| && log[i].status == NotifSent ==> log'[i] == log[i]
    ensures forall i | 0 <= i < |log| && log[i].sends >= 1 ::
      if s == RetryPass && Eligible(log[i], r) then log'[i].sends == log[i].sends + 1 else log'[i] == log[i]
  {
    hide RetriedSomehow;
    if s == RetryPass {
      forall i | 0 <= i < |log| && Eligible(log[i], r) ensures Bounded(log'[i], r) && log'[i].sends == log[i].sends + 1 {
        RetryBounded(log[i], log'[i], r);
      }
    }
  }

  lemma {:induction false} HistoryBounded(logs: seq<seq<Tracked>>, steps: seq<Step>, r: int, k: nat)
    requires History(logs, steps, r) && k <= |steps|
    ensures forall i :: 0 <= i < |logs[k]| ==> Bounded(logs[k][i], r)
  {
    hide Bounded;
    if k > 0 {
      HistoryBounded(logs, steps, r, k - 1);
      StepBounded(logs[k - 1], logs[k], steps[k - 1], r);
    }
  }

  lemma Widen(a: nat, b: nat, m: nat)
    requires a <= b
    ensures a * m <= b * m
  {
  }

  /** Every send is an attempt in the log or a lost log update; the log never counts more than
      max(1, R) attempts; and with L lost updates one notification costs at most
      (max(1, R) + L) * max(1, R) posts over any run, the square when none is lost. */
  lemma NestedRetryBound(logs: seq<seq<Tracked>>, steps: seq<Step>, r: int, k: nat, i: nat)
    requires History(logs, steps, r) && k <= |steps| && i < |logs[k]|
    ensures var n, m := logs[k][i], AtLeastOne(r);
      n.sends == n.attempts + n.lost && n.attempts <= m && n.posts <= (m + n.lost) * m
  {
    HistoryBounded(logs, steps, r, k);
    Widen(logs[k][i].sends, AtLeastOne(r) + logs[k][i].lost, AtLeastOne(r));
  }

  // ---------------------------------------------------------------- the bound is reached

  /** A notification that no post has delivered, after its first send, `lost` retries whose log
      updates were lost, and `k` that were logged. */
  function Unlucky(r: int, k: nat, lost: nat): Tracked {
    Tracked(if k == 0 || k + 1 >= r then NotifFailed else NotifRetrying,
            k + 1, k + 1 + lost, (k + 1 + lost) * AtLeastOne(r), lost)
  }

  lemma {:induction false} UnluckyHistory(r: int, k: nat, lost: nat) returns (logs: seq<seq<Tracked>>, steps: seq<Step>)
    requires k < AtLeastOne(r) && (lost > 0 ==> r > 1)
    ensures History(logs, steps, r) && |logs| == |steps| + 1 && logs[|steps|] == [Unlucky(r, k, lost)]
    decreases k, lost
  {
    hide History, Stepped, Unlucky, Eligible, RetriedSomehow;
    if k == 0 && lost == 0 {
      HistoryStarts(r);
      HistoryOn([[]], [], [NEW], Create, r);
      UnluckyFirst(r);
      HistoryOn([[]] + [[NEW]], [] + [Create], [Unlucky(r, 0, 0)], FirstSend(0), r);
      logs, steps := [[]] + [[NEW]] + [[Unlucky(r, 0, 0)]], [] + [Create] + [FirstSend(0)];
    } else {
      var before := if k > 0 then Unlucky(r, k - 1, lost) else Unlucky(r, 0, lost - 1);
      if k > 0 {
        logs, steps := UnluckyHistory(r, k - 1, lost);
      } else {
        logs, steps := UnluckyHistory(r, 0, lost - 1);
      }
      UnluckyAgain(r, k, lost);
      RetryStep(before, Unlucky(r, k, lost), r);
      HistoryOn(logs, steps, [Unlucky(r, k, lost)], RetryPass, r);
      logs, steps := logs + [[Unlucky(r, k, lost)]], steps + [RetryPass];
    }
  }

  lemma UnluckyFirst(r: int)
    ensures Stepped([NEW], [Unlucky(r, 0, 0)], FirstSend(0), r)
  {
    hide Stepped;
    FirstStep([NEW], 0, SendFailed, AtLeastOne(r), true, r);
    assert [NEW][0 := FirstSent(NEW, SendFailed, AtLeastOne(r), true)] == [Unlucky(r, 0, 0)];
  }

  lemma UnluckyAgain(r: int, k: nat, lost: nat)
    requires k < AtLeastOne(r) && (lost > 0 ==> r > 1) && k + lost > 0
    ensures var before := if k > 0 then Unlucky(r, k - 1, lost) else Unlucky(r, 0, lost - 1);
      Eligible(before, r) && RetriedSomehow(before, Unlucky(r, k, lost), r)
  {
    var before := if k > 0 then Unlucky(r, k - 1, lost) else Unlucky(r, 0, lost - 1);
    OneMoreSend(k + lost, AtLeastOne(r));
    assert Unlucky(r, k, lost) == Retried(before, r, SendFailed, AtLeastOne(r), k > 0);
  }

  lemma HistoryStarts(r: int)
    ensures History([[]], [], r) && Stepped([], [NEW], Create, r)
  {
    assert [] + [NEW] == [NEW];
  }

  lemma RetryStep(before: Tracked, after: Tracked, r: int)
    requires Eligible(before, r) && RetriedSomehow(before, after, r)
    ensures Stepped([before], [after], RetryPass, r)
  {
    hide RetriedSomehow;
  }

  lemma HistoryOn(logs: seq<seq<Tracked>>, steps: seq<Step>, log: seq<Tracked>, s: Step, r: int)
    requires History(logs, steps, r) && |logs| == |steps| + 1 && Stepped(logs[|steps|], log, s, r)
    ensures History(logs + [log], steps + [s], r)
  {
    hide Stepped;
    forall k | 0 <= k <= |steps| ensures Stepped((logs + [log])[k], (logs + [log])[k + 1], (steps + [s])[k], r) {
      assert k < |steps| ==> Stepped(logs[k], logs[k + 1], steps[k], r);
    }
  }

  lemma OneMoreSend(k: nat, m: nat)
    ensures k * m + m == (k + 1) * m
  {
  }

  /** The bound is reached for every limit when the hub never answers: the square when no log
      update is lost, and, for a limit that allows retries, for any number of lost ones. */
  lemma BoundIsReached(r: int, lost: nat) returns (logs: seq<seq<Tracked>>, steps: seq<Step>)
    requires lost > 0 ==> r > 1
    ensures History(logs, steps, r) && |logs[|steps|]| == 1
    ensures var n, m := logs[|steps|][0], AtLeastOne(r);
      n.lost == lost && n.posts == (m + lost) * m
  {
    logs, steps := UnluckyHistory(r, AtLeastOne(r) - 1, lost);
  }

  /** Under a limit that allows no retry, a notification is sent at most once, whatever is lost. */
  lemma {:induction false} NoRetryOneSend(logs: seq<seq<Tracked>>, steps: seq<Step>, r: int, k: nat)
    requires History(logs, steps, r) && k <= |steps| && r <= 1
    ensures forall i :: 0 <= i < |logs[k]| ==> logs[k][i].sends <= 1 && logs[k][i].posts <= 1
  {
    HistoryBounded(logs, steps, r, k);
    if k > 0 {
      NoRetryOneSend(logs, steps, r, k - 1);
      HistoryBounded(logs, steps, r, k - 1);
      StepBounded(logs[k - 1], logs[k], steps[k - 1], r);
      NoRetryStep(logs[k - 1], logs[k], steps[k - 1], r);
    }
  }

  lemma NoRetryStep(log: seq<Tracked>, log': seq<Tracked>, s: Step, r: int)
    requires Stepped(log, log', s, r) && r <= 1 && forall i :: 0 <= i < |log| ==> Bounded(log[i], r) && log[i].sends <= 1
    ensures forall i :: 0 <= i < |log'| ==> log'[i].sends <= 1
  {
    hide RetriedSomehow;
  }

  // ---------------------------------------------------------------- the end of retrying

  function Passes(steps: seq<Step>): nat {
    if steps == [] then 0 else Passes(steps[..|steps| - 1]) + (if steps[|steps| - 1] == RetryPass then 1 else 0)
  }

  /** Sent is never left. */
  lemma {:induction false} SentStays(logs: seq<seq<Tracked>>, steps: seq<Step>, r: int, k: nat, l: nat, i: nat)
    requires History(logs, steps, r) && k <= l <= |steps| && i < |logs[k]| && logs[k][i].status == NotifSent
    ensures i < |logs[l]| && logs[l][i] == logs[k][i]
    decreases l
  {
    if k < l {
      SentStays(logs, steps, r, k, l - 1, i);
      HistoryBounded(logs, steps, r, l - 1);
      StepBounded(logs[l - 1], logs[l], steps[l - 1], r);
    }
  }

  /** A row that was sent once and is still eligible was eligible all along, and was sent again in
      every pass since. */
  lemma {:induction false} EligibleWasRetried(logs: seq<seq<Tracked>>, steps: seq<Step>, r: int, k: nat, l: nat, i: nat)
    requires History(logs, steps, r) && k <= l <= |steps| && i < |logs[k]| && logs[k][i].sends >= 1
    ensures i < |logs[l]| && logs[l][i].sends >= logs[k][i].sends
    ensures Eligible(logs[l][i], r) ==>
      Eligible(logs[k][i], r) && logs[l][i].sends == logs[k][i].sends + Passes(steps[k..l])
    decreases l
  {
    hide Bounded;
    if k < l {
      EligibleWasRetried(logs, steps, r, k, l - 1, i);
      HistoryBounded(logs, steps, r, l - 1);
      StepBounded(logs[l - 1], logs[l], steps[l - 1], r);
      NotEligibleAgain(logs[l - 1], logs[l], steps[l - 1], r, i);
      assert steps[k..l][..l - k - 1] == steps[k..l - 1] && steps[k..l][l - k - 1] == steps[l - 1];
    } else {
      assert steps[k..l] == [];
    }
  }

  lemma NotEligibleAgain(log: seq<Tracked>, log': seq<Tracked>, s: Step, r: int, i: nat)
    requires Stepped(log, log', s, r) && i < |log| && log[i].sends >= 1 && i < |log'|
    ensures Eligible(log'[i], r) ==> Eligible(log[i], r)
  {
    hide RetriedSomehow;
  }

  /** Quiescence: a notification that was sent is not eligible any more once R - 1 passes have
      gone by, and one more for each log update lost meanwhile. */
  lemma RetriesEnd(logs: seq<seq<Tracked>>, steps: seq<Step>, r: int, k: nat, l: nat, i: nat)
    requires History(logs, steps, r) && k <= l <= |steps| && i < |logs[k]| && logs[k][i].sends >= 1
    requires i < |logs[l]| && Passes(steps[k..l]) >= r - 1 + logs[l][i].lost - logs[k][i].lost
    ensures !Eligible(logs[l][i], r)
  {
    EligibleWasRetried(logs, steps, r, k, l, i);
    HistoryBounded(logs, steps, r, k);
    HistoryBounded(logs, steps, r, l);
  }
}
