/** The candidate a rural offer settles by itself: the only one, or one that dominates every other. */
module RuralChoice {
  import opened Options
  import opened Access
  import opened Offers

  /** The measured climb of a complete journey, with moving times where an estimate exists. */
  datatype Profile = Profile(variation: real, gradient: real, seconds: Option<real>, hillNeutral: Option<real>)

  type Profiles = CommunityAccess -> Option<Profile>

  /** The quantities two candidates are compared by; none if one of the four basic ones is missing. */
  function Metrics(profiles: Profiles, left: CommunityAccess, right: CommunityAccess): Option<seq<real>> {
    if left.link.None? || profiles(left).None? then None
    else
      var (mine, theirs) := (profiles(left).value, profiles(right));
      Some([left.link.value.newLink, left.link.value.full, mine.variation, mine.gradient]
        + Shared(mine.seconds, if theirs.Some? then theirs.value.seconds else None)
        + Shared(mine.hillNeutral, if theirs.Some? then theirs.value.hillNeutral else None))
  }

  /** A moving time counts only if both candidates have it. */
  function Shared(mine: Option<real>, theirs: Option<real>): seq<real> {
    if mine.Some? && theirs.Some? then [mine.value] else []
  }

  predicate Dominates(profiles: Profiles, left: Candidate, right: Candidate) {
    var (l, r) := (Metrics(profiles, left.access, right.access), Metrics(profiles, right.access, left.access));
    && l.Some? && r.Some? && |l.value| == |r.value|
    && (forall i | 0 <= i < |l.value| :: l.value[i] <= r.value[i])
    && (exists i :: 0 <= i < |l.value| && l.value[i] < r.value[i])
  }

  predicate DominatesAll(profiles: Profiles, list: seq<Candidate>, c: Candidate) {
    forall i | 0 <= i < |list| && list[i].id != c.id :: Dominates(profiles, c, list[i])
  }

  function FirstDominating(profiles: Profiles, list: seq<Candidate>, k: nat): (found: Option<Candidate>)
    requires k <= |list|
    ensures found.Some? ==> found.value in list
    decreases |list| - k
  {
    if k == |list| then None
    else if DominatesAll(profiles, list, list[k]) then Some(list[k])
    else FirstDominating(profiles, list, k + 1)
  }

  lemma {:induction false} FirstDominates(profiles: Profiles, list: seq<Candidate>, k: nat)
    requires k <= |list|
    ensures var found := FirstDominating(profiles, list, k);
      if found.Some? then DominatesAll(profiles, list, found.value)
      else forall i | k <= i < |list| :: !DominatesAll(profiles, list, list[i])
    decreases |list| - k
  {
    hide DominatesAll;
    if k < |list| { FirstDominates(profiles, list, k + 1); }
  }

  function MechanicalCandidate(profiles: Profiles, list: seq<Candidate>): (found: Option<Candidate>)
    ensures found.Some? ==> found.value in list
  {
    if |list| == 1 then Some(list[0]) else FirstDominating(profiles, list, 0)
  }

  /** Two candidates are always compared by equally many quantities, so neither comparison drops one silently. */
  lemma {:induction false} ComparedAlike(profiles: Profiles, left: CommunityAccess, right: CommunityAccess)
    requires Metrics(profiles, left, right).Some? && Metrics(profiles, right, left).Some?
    ensures |Metrics(profiles, left, right).value| == |Metrics(profiles, right, left).value|
  {
    var (l, r) := (profiles(left).value, profiles(right).value);
    assert |Shared(l.seconds, r.seconds)| == |Shared(r.seconds, l.seconds)|;
    assert |Shared(l.hillNeutral, r.hillNeutral)| == |Shared(r.hillNeutral, l.hillNeutral)|;
  }

  /** Dominance never goes both ways. */
  lemma {:induction false} DominanceIsOneWay(profiles: Profiles, a: Candidate, b: Candidate)
    requires Dominates(profiles, a, b)
    ensures !Dominates(profiles, b, a)
  {
    var (l, r) := (Metrics(profiles, a.access, b.access).value, Metrics(profiles, b.access, a.access).value);
    var i :| 0 <= i < |l| && l[i] < r[i];
    assert !(r[i] <= l[i]);
  }

  /** What is settled mechanically does not depend on the order in which the candidates are listed. */
  lemma {:induction false} MechanicalIgnoresOrder(profiles: Profiles, list: seq<Candidate>, other: seq<Candidate>)
    requires forall i, j | 0 <= i < j < |list| :: list[i].id != list[j].id
    requires |list| == |other| && forall c :: c in list <==> c in other
    ensures MechanicalCandidate(profiles, list) == MechanicalCandidate(profiles, other)
  {
    if |list| == 1 {
      assert other[0] in list;
    } else {
      var (a, b) := (FirstDominating(profiles, list, 0), FirstDominating(profiles, other, 0));
      FirstDominates(profiles, list, 0);
      FirstDominates(profiles, other, 0);
      forall c | c in list ensures DominatesAll(profiles, list, c) <==> DominatesAll(profiles, other, c) {
        if DominatesAll(profiles, list, c) { SameRivals(profiles, list, other, c); }
        if DominatesAll(profiles, other, c) { SameRivals(profiles, other, list, c); }
      }
      if a.Some? && b.Some? && a.value != b.value {
        assert Dominates(profiles, a.value, b.value);
        assert b.value in list && a.value in other;
        assert Dominates(profiles, b.value, a.value);
        DominanceIsOneWay(profiles, a.value, b.value);
      }
    }
  }

  lemma {:induction false} SameRivals(profiles: Profiles, list: seq<Candidate>, other: seq<Candidate>, c: Candidate)
    requires forall d :: d in other ==> d in list
    requires DominatesAll(profiles, list, c)
    ensures DominatesAll(profiles, other, c)
  {
    forall i | 0 <= i < |other| && other[i].id != c.id ensures Dominates(profiles, c, other[i]) {
      assert other[i] in list;
    }
  }
}
