/**
 * Fitting the conversation into the routing context (context/builder.rs): the newest
 * messages are kept, as many as the soft limit allows.
 */
module ContextWindow {
  import opened Wrappers

  /** `tokens` is the estimated weight of the message. */
  datatype Message = Message(text: string, tokens: nat)

  datatype Policy = Policy(maxRecentMessages: nat, maxRelevantJobs: nat, softTokenLimit: nat, hardTokenLimit: nat)

  datatype Warning = Exceeded | NearLimit

  datatype Window = Window(messages: seq<Message>, jobs: seq<nat>, warning: Option<Warning>)

  function Total(messages: seq<Message>): nat {
    if messages == [] then 0 else messages[0].tokens + Total(messages[1..])
  }

  function Sum(jobs: seq<nat>): nat {
    if jobs == [] then 0 else jobs[0] + Sum(jobs[1..])
  }

  function SaturatingSub(a: nat, b: nat): nat {
    if a < b then 0 else a - b
  }

  function LastOf<T>(s: seq<T>, count: nat): seq<T> {
    s[SaturatingSub(|s|, count)..]
  }

  function Truncate<T>(s: seq<T>, count: nat): seq<T> {
    if |s| <= count then s else s[..count]
  }

  // -------------------------------------------------------------------- what is promised

  /** `kept` is the longest suffix that fits beside the fixed part, or nothing if none does. */
  ghost predicate LongestFitting(all: seq<Message>, fixed: nat, limit: nat, kept: seq<Message>) {
    && (exists k :: 0 <= k <= |all| && kept == all[k..])
    && (kept != [] ==> fixed + Total(kept) <= limit)
    && (forall k | 0 <= k <= |all| && fixed + Total(all[k..]) <= limit :: |all[k..]| <= |kept|)
  }

  /** The newest messages, at the end of the list, as many as allowed. */
  ghost predicate AreNewest(all: seq<Message>, count: nat, newest: seq<Message>) {
    && |newest| <= |all| && newest == all[|all| - |newest|..]
    && if |all| <= count then newest == all else |newest| == count
  }

  /** What the window keeps of the messages already cut down to the newest ones. */
  ghost predicate Fits(recent: seq<Message>, fixed: nat, policy: Policy, kept: seq<Message>, warning: Option<Warning>) {
    var estimate := fixed + Total(recent);
    if estimate > policy.hardTokenLimit then
      warning == Some(Exceeded) && LongestFitting(recent, fixed, policy.softTokenLimit, kept)
    else
      kept == recent && warning == if estimate > policy.softTokenLimit then Some(NearLimit) else None
  }

  lemma {:induction false} ShorterIsLighter(all: seq<Message>, j: nat, k: nat)
    requires j <= k <= |all|
    ensures Total(all[k..]) <= Total(all[j..])
    decreases k - j
  {
    if j < k {
      ShorterIsLighter(all, j + 1, k);
    }
  }

  /**
   * The trimming loop. The running estimate is always the fixed part plus what remains, so
   * the saturating subtraction never saturates.
   */
  method Trim(recent: seq<Message>, fixed: nat, limit: nat) returns (kept: seq<Message>, estimate: nat)
    ensures LongestFitting(recent, fixed, limit, kept)
    ensures estimate == fixed + Total(kept)
  {
    kept, estimate := recent, fixed + Total(recent);
    ghost var dropped := 0;
    while estimate > limit && kept != []
      invariant 0 <= dropped <= |recent| && kept == recent[dropped..]
      invariant estimate == fixed + Total(kept)
      invariant forall k | 0 <= k < dropped :: fixed + Total(recent[k..]) > limit
      decreases |kept|
    {
      var removed := kept[0];
      assert estimate >= removed.tokens;
      kept := kept[1..];
      estimate := SaturatingSub(estimate, removed.tokens);
      dropped := dropped + 1;
    }
    forall k | 0 <= k <= |recent| && fixed + Total(recent[k..]) <= limit ensures |recent[k..]| <= |kept| {
      assert k >= dropped;
    }
  }

  /** `other` is the estimate of everything that is neither a recent message nor a listed job. */
  method Build(stored: seq<Message>, jobs: seq<nat>, other: nat, policy: Policy) returns (w: Window)
    ensures w.jobs <= jobs && (|w.jobs| == policy.maxRelevantJobs ||
                               (w.jobs == jobs && |jobs| < policy.maxRelevantJobs))
    ensures exists recent :: AreNewest(stored, policy.maxRecentMessages, recent)
                             && Fits(recent, other + Sum(w.jobs), policy, w.messages, w.warning)
  {
    var messages := LastOf(stored, policy.maxRecentMessages);
    assert AreNewest(stored, policy.maxRecentMessages, messages);
    ghost var recent := messages;
    var relevant := Truncate(jobs, policy.maxRelevantJobs);
    var warning := None;
    var estimate := other + Total(messages) + Sum(relevant);
    if estimate > policy.hardTokenLimit {
      warning := Some(Exceeded);
      messages, estimate := Trim(messages, other + Sum(relevant), policy.softTokenLimit);
    } else if estimate > policy.softTokenLimit {
      warning := Some(NearLimit);
    }
    w := Window(messages, relevant, warning);
    assert Fits(recent, other + Sum(relevant), policy, messages, warning);
  }

  // ----------------------------------------------------------------------- consequences

  /** The promise determines what is kept. */
  lemma LongestIsUnique(all: seq<Message>, fixed: nat, limit: nat, a: seq<Message>, b: seq<Message>)
    requires LongestFitting(all, fixed, limit, a) && LongestFitting(all, fixed, limit, b)
    ensures a == b
  {
  }

  /**
   * When the soft limit is not above the hard one, the window ends up within the hard limit
   * exactly when the part that cannot be trimmed does.
   */
  lemma WindowFitsIffFixedFits(recent: seq<Message>, fixed: nat, policy: Policy, kept: seq<Message>,
                               warning: Option<Warning>)
    requires Fits(recent, fixed, policy, kept, warning) && policy.softTokenLimit <= policy.hardTokenLimit
    ensures fixed + Total(kept) <= policy.hardTokenLimit <==> fixed <= policy.hardTokenLimit
    ensures warning == Some(Exceeded) && fixed <= policy.softTokenLimit ==> fixed + Total(kept) <= policy.softTokenLimit
  {
  }

  /** Building the window again from what was kept keeps all of it, if the fixed part fits. */
  lemma RebuildingKeepsAll(recent: seq<Message>, fixed: nat, policy: Policy, kept: seq<Message>,
                           warning: Option<Warning>,
                           again: seq<Message>, warning': Option<Warning>)
    requires Fits(recent, fixed, policy, kept, warning) && Fits(kept, fixed, policy, again, warning')
    requires policy.softTokenLimit <= policy.hardTokenLimit
    ensures again == kept
  {
  }
}
