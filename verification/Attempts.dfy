/** Provider attempts: started durably before the call, finished durably after it, and never made twice. */
module Attempts {
  import opened Options
  import opened Decisions
  import opened History
  import opened Lookups

  /** Every result directly follows its start, only the last start may lack one, and no attempt starts twice. */
  ghost predicate Orderly(chain: seq<Entry>) {
    && (forall i | 0 <= i < |chain| && chain[i].Finished? :: i > 0 && chain[i - 1] == Started(chain[i].attempt))
    && (forall i | 0 <= i < |chain| - 1 && chain[i].Started? :: chain[i + 1].Finished?)
    && (forall i, j | 0 <= i < j < |chain| && chain[i].Started? && chain[j].Started? ::
      chain[i].attempt != chain[j].attempt)
  }

  /** The attempt a chain was cut off in, if any. */
  function OpenAttempt(chain: seq<Entry>): Option<AttemptId> {
    if chain != [] && chain[|chain| - 1].Started? then Some(chain[|chain| - 1].attempt) else None
  }

  /**
   Every branch is orderly, every provider call was made for an attempt its branch
   holds as started, and no attempt of a branch was called twice.
   */
  ghost predicate Kept(chains: map<Branch, seq<Entry>>, calls: seq<(Branch, AttemptId)>) {
    && (forall b <- chains :: Orderly(chains[b]))
    && (forall k | 0 <= k < |calls| :: calls[k].0 in chains && Started(calls[k].1) in chains[calls[k].0])
    && (forall j, k | 0 <= j < k < |calls| :: calls[j] != calls[k])
  }

  /** An attempt without a result, on a branch with no attempt open, has not been started. */
  lemma {:induction false} NotYetStarted(chain: seq<Entry>, attempt: AttemptId)
    requires Orderly(chain) && OpenAttempt(chain).None? && RetainedResult(chain, attempt).None?
    ensures Started(attempt) !in chain && Orderly(chain + [Started(attempt)])
  {
    forall i | 0 <= i < |chain| ensures chain[i] != Started(attempt) {
      if chain[i].Started? {
        assert i < |chain| - 1 && chain[i + 1] == Finished(chain[i].attempt, chain[i + 1].record);
      }
    }
  }

  lemma {:induction false} MayFinish(chain: seq<Entry>, attempt: AttemptId, record: Record)
    requires Orderly(chain + [Started(attempt)])
    ensures Orderly(chain + [Started(attempt)] + [Finished(attempt, record)])
    ensures chain + [Started(attempt)] + [Finished(attempt, record)] ==
      chain + [Started(attempt), Finished(attempt, record)]
  {
    var longer := chain + [Started(attempt)] + [Finished(attempt, record)];
    forall i | 0 <= i < |longer| && longer[i].Finished? ensures i > 0 && longer[i - 1] == Started(longer[i].attempt) {
      if i < |longer| - 1 { assert longer[i] == (chain + [Started(attempt)])[i]; }
    }
  }

  lemma MayAdd(chain: seq<Entry>, e: Entry)
    requires Orderly(chain) && OpenAttempt(chain).None? && (e.TaskSet? || e.Decided?)
    ensures Orderly(chain + [e]) && OpenAttempt(chain + [e]).None?
  {
  }

  /** Looks for an attempt that was started and has no result. */
  method PendingAttempt(chain: seq<Entry>) returns (pending: Option<AttemptId>)
    ensures Orderly(chain) ==> pending == OpenAttempt(chain)
  {
    var started: set<AttemptId> := {};
    for i := 0 to |chain|
      invariant Orderly(chain) ==> started == if i > 0 && chain[i - 1].Started? then {chain[i - 1].attempt} else {}
    {
      if chain[i].Started? {
        started := started + {chain[i].attempt};
      } else if chain[i].Finished? {
        started := started - {chain[i].attempt};
      }
    }
    if exists a :: a in started {
      var a :| a in started;
      return Some(a);
    }
    assert started == {};
    return None;
  }

  /** An orderly addition to one branch keeps everything. */
  lemma ExtendKeeps(chains: map<Branch, seq<Entry>>, calls: seq<(Branch, AttemptId)>, b: Branch, e: Entry)
    requires Kept(chains, calls) && b in chains && Orderly(chains[b] + [e])
    ensures Kept(chains[b := chains[b] + [e]], calls)
  {
  }

  /** A started attempt nobody was called for may be called once. */
  lemma CallKeeps(chains: map<Branch, seq<Entry>>, calls: seq<(Branch, AttemptId)>, b: Branch, attempt: AttemptId)
    requires Kept(chains, calls) && b in chains && Started(attempt) in chains[b] && (b, attempt) !in calls
    ensures Kept(chains, calls + [(b, attempt)])
  {
  }

  /** What the branch holds now; on a valid store reading never fails. */
  method Read(store: HistoryStore, b: Branch) returns (chain: seq<Entry>)
    requires store.Valid() && b in store.chains
    ensures chain == store.chains[b]
  {
    var read := store.ReadChain(b);
    chain := Bodies(read.value);
  }

  /**
   One attempt: a retained result is used again; otherwise the start is recorded, the
   provider asked, and the result recorded.  `answer` is what the provider says and
   `live` whether there is one to call.
   */
  method Attempt(
      store: HistoryStore, b: Branch, attempt: AttemptId, answer: Record, live: bool) returns (r: Outcome<Record>)
    requires store.Valid() && Kept(store.chains, store.calls) && b in store.chains && OpenAttempt(store.chains[b]).None?
    modifies store
    ensures store.Valid() && Kept(store.chains, store.calls)
    ensures store.Account() >= old(store.Account())
    ensures store.Fuel(b) + (if r.Ok? then 0 else 2) >= old(store.Fuel(b))
    ensures b in store.chains && store.chains == old(store.chains)[b := store.chains[b]]
    ensures var chain := old(store.chains)[b];
      if RetainedResult(chain, attempt).Some? then
        && r == Ok(RetainedResult(chain, attempt).value) && store.chains[b] == chain
        && store.events == old(store.events) && store.calls == old(store.calls)
      else if r.Ok? then
        && r.value == answer && store.chains[b] == chain + [Started(attempt), Finished(attempt, answer)]
        && store.calls == old(store.calls) + if live then [(b, attempt)] else []
      else
        r.error == PowerCut && store.power == 0 && store.chains[b] in [chain, chain + [Started(attempt)]]
  {
    var chain := Read(store, b);
    var held := RetainedResult(chain, attempt);
    if held.Some? {
      return Ok(held.value);
    }
    r := Ask(store, b, attempt, answer, live);
  }

  /** The start, the call and the result of an attempt not yet made. */
  method Ask(
      store: HistoryStore, b: Branch, attempt: AttemptId, answer: Record, live: bool) returns (r: Outcome<Record>)
    requires store.Valid() && Kept(store.chains, store.calls) && b in store.chains && OpenAttempt(store.chains[b]).None?
    requires RetainedResult(store.chains[b], attempt).None?
    modifies store
    ensures store.Valid() && Kept(store.chains, store.calls)
    ensures store.Account() >= old(store.Account())
    ensures store.Fuel(b) + (if r.Ok? then 0 else 2) >= old(store.Fuel(b))
    ensures b in store.chains && store.chains == old(store.chains)[b := store.chains[b]]
    ensures r.Ok? ==>
      r.value == answer && store.chains[b] == old(store.chains)[b] + [Started(attempt), Finished(attempt, answer)]
    ensures r.Ok? ==> store.calls == old(store.calls) + if live then [(b, attempt)] else []
    ensures r.Err? ==> r.error == PowerCut && store.power == 0
    ensures r.Err? ==> store.chains[b] in [old(store.chains)[b], old(store.chains)[b] + [Started(attempt)]]
  {
    hide HistoryStore.Valid;
    ghost var chain := store.chains[b];
    NotYetStarted(chain, attempt);
    ExtendKeeps(store.chains, store.calls, b, Started(attempt));
    var on := store.Append(b, Started(attempt));
    if on.Err? {
      return Err(on.error);
    }
    r := Conclude(store, b, attempt, answer, live, chain);
  }

  /** The call and the result of the attempt just started. */
  method Conclude(
      store: HistoryStore, b: Branch, attempt: AttemptId, answer: Record, live: bool, ghost before: seq<Entry>)
    returns (r: Outcome<Record>)
    requires store.Valid() && Kept(store.chains, store.calls) && b in store.chains
      && store.chains[b] == before + [Started(attempt)]
    requires (b, attempt) !in store.calls
    modifies store
    ensures store.Valid() && Kept(store.chains, store.calls)
    ensures store.Account() >= old(store.Account())
    ensures store.Fuel(b) + (if r.Ok? then 0 else 2) >= old(store.Fuel(b))
    ensures b in store.chains && store.chains == old(store.chains)[b := store.chains[b]]
    ensures r.Ok? ==> r.value == answer && store.chains[b] == before + [Started(attempt), Finished(attempt, answer)]
    ensures r.Ok? ==> store.calls == old(store.calls) + if live then [(b, attempt)] else []
    ensures r.Err? ==> r.error == PowerCut && store.power == 0 && store.chains == old(store.chains)
  {
    hide HistoryStore.Valid;
    if live {
      CallKeeps(store.chains, store.calls, b, attempt);
      var asked := store.Call(b, attempt);
      if !asked {
        return Err(PowerCut);
      }
    }
    MayFinish(before, attempt, answer);
    ExtendKeeps(store.chains, store.calls, b, Finished(attempt, answer));
    var on := store.Append(b, Finished(attempt, answer));
    if on.Err? {
      return Err(on.error);
    }
    r := Ok(answer);
  }

  /** A fork before a task keeps all this, and the new branch is never cut off in an attempt. */
  lemma ForkKeeps(
      chains: map<Branch, seq<Entry>>, calls: seq<(Branch, AttemptId)>, source: Branch, target: Branch, task: TaskId)
    requires Kept(chains, calls) && source in chains && target !in chains
      && TaskPlace(chains[source], task) < |chains[source]|
    ensures Kept(chains[target := chains[source][..TaskPlace(chains[source], task)]], calls)
    ensures OpenAttempt(chains[source][..TaskPlace(chains[source], task)]).None?
  {
  }
}
