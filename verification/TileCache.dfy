/**
 Write-once publication of elevation tiles by any number of workers at once: each
 step below is one look at, or one atomic change of, the shared cache directory.
 */
module TileCache {
  import opened Options

  type Bytes = seq<int>
  type Digest = int
  type Fingerprint = int
  type Request = int
  type Metadata = int

  /** The write-once fact that a request was answered with these bytes. */
  datatype Receipt = Receipt(request: Request, digest: Digest, byteCount: nat, metadata: Metadata)

  /** The hash, the request fingerprint, the raster check (none where it raises) and the failure budget. */
  datatype Site = Site(
    digest: Bytes -> Digest, fingerprint: Request -> Fingerprint, inspect: (Request, Bytes) -> Option<Metadata>,
      attempts: nat)

  /** What a worker does next. */
  datatype Phase =
    | ReadReceipt
    | ReadCached
    | Fetch
    | LookForObject(bytes: Bytes)
    | StoreOrObserve(bytes: Bytes)
    | LinkObject(bytes: Bytes, metadata: Metadata)
    | LinkReceipt(bytes: Bytes, metadata: Metadata)
    | Done(outcome: Option<Digest>)

  /** One call for one tile; `expected` is the receipt it found when it started. */
  datatype Worker = Worker(request: Request, phase: Phase, expected: Option<Receipt>, attempt: nat)

  datatype State = State(receipts: map<Fingerprint, Receipt>, objects: map<Digest, Bytes>, workers: seq<Worker>)

  function Begin(request: Request): Worker { Worker(request, ReadReceipt, None, 1) }

  predicate IsGeoTiff(bytes: Bytes) { |bytes| >= 2 && (bytes[..2] == [73, 73] || bytes[..2] == [77, 77]) }

  /** A failed attempt: another one within the budget, or an explicit unknown. */
  function Fail(site: Site, w: Worker): Worker {
    if w.attempt < site.attempts then w.(phase := Fetch, attempt := w.attempt + 1) else w.(phase := Done(None))
  }

  /** One step of worker `w`; `answer` is what the service says if it is asked now. */
  function Act(site: Site, s: State, w: Worker, answer: Option<Bytes>): (State, Worker) {
    match w.phase
    case ReadReceipt =>
      var fp := site.fingerprint(w.request);
      if fp !in s.receipts then (s, w.(phase := Fetch))
      else if s.receipts[fp].request != w.request then (s, w.(phase := Done(None)))
      else (s, w.(phase := ReadCached, expected := Some(s.receipts[fp])))
    case ReadCached =>
      if w.expected.None? then (s, w.(phase := Fetch))
      else
        var r := w.expected.value;
        if r.digest in s.objects && |s.objects[r.digest]| == r.byteCount
          && site.digest(s.objects[r.digest]) == r.digest then
          (s, w.(phase := Done(if site.inspect(w.request, s.objects[r.digest]) ==
            Some(r.metadata) then Some(r.digest) else None)))
        else (s, w.(phase := Fetch))
    case Fetch =>
      if answer.None? || !IsGeoTiff(answer.value) then (s, Fail(site, w))
      else if w.expected.Some? && site.digest(answer.value) != w.expected.value.digest then (s, Fail(site, w))
      else (s, w.(phase := LookForObject(answer.value)))
    case LookForObject(bytes) =>
      var d := site.digest(bytes);
      if d !in s.objects then (s, w.(phase := StoreOrObserve(bytes)))
      else if site.digest(s.objects[d]) != d then (s.(objects := s.objects - {d}), w.(phase := StoreOrObserve(bytes)))
      else if site.inspect(w.request, s.objects[d]).None? then (s, Fail(site, w))
      else (s, w.(phase := StoreOrObserve(bytes)))
    case StoreOrObserve(bytes) =>
      var d := site.digest(bytes);
      var seen := site.inspect(w.request, if d in s.objects then s.objects[d] else bytes);
      if seen.None? then (s, Fail(site, w))
      else if d in s.objects then (s, w.(phase := LinkReceipt(bytes, seen.value)))
      else (s, w.(phase := LinkObject(bytes, seen.value)))
    case LinkObject(bytes, metadata) =>
      var d := site.digest(bytes);
      if d !in s.objects then (s.(objects := s.objects[d := bytes]), w.(phase := LinkReceipt(bytes, metadata)))
      else if site.digest(s.objects[d]) != d then (s, Fail(site, w))
      else (s, w.(phase := LinkReceipt(bytes, metadata)))
    case LinkReceipt(bytes, metadata) =>
      var (fp, r) := (site.fingerprint(w.request), Receipt(w.request, site.digest(bytes), |bytes|, metadata));
      if fp !in s.receipts then (s.(receipts := s.receipts[fp := r]), w.(phase := Done(Some(r.digest))))
      else if s.receipts[fp] == r then (s, w.(phase := Done(Some(r.digest))))
      else (s, Fail(site, w))
    case Done(_) => (s, w)
  }

  /** Worker `i` takes its next step. */
  function Step(site: Site, s: State, i: nat, answer: Option<Bytes>): State
    requires i < |s.workers|
  {
    var (s', w) := Act(site, s, s.workers[i], answer);
    s'.(workers := s.workers[i := w])
  }

  /** Any interleaving: who moves, and what the service would answer. */
  function Run(site: Site, s: State, schedule: seq<(nat, Option<Bytes>)>): (end: State)
    requires forall k | 0 <= k < |schedule| :: schedule[k].0 < |s.workers|
    ensures |end.workers| == |s.workers|
    decreases |schedule|
  {
    if schedule == [] then s else Run(site, Step(site, s, schedule[0].0, schedule[0].1), schedule[1..])
  }

  /** What a worker relies on in the cache. */
  ghost predicate Backed(site: Site, s: State, w: Worker) {
    var fp := site.fingerprint(w.request);
    && (w.expected.Some? ==>
      fp in s.receipts && s.receipts[fp] == w.expected.value && w.expected.value.request == w.request)
    && (w.phase.LinkReceipt? ==> site.digest(w.phase.bytes) in s.objects)
    && (w.phase.Done? && w.phase.outcome.Some? ==>
          fp in s.receipts && s.receipts[fp].digest == w.phase.outcome.value && s.receipts[fp].request == w.request)
  }

  /** Objects hash to their names, and every receipt's object is there. */
  ghost predicate Sound(site: Site, s: State) {
    && (forall d <- s.objects :: site.digest(s.objects[d]) == d)
    && (forall fp <- s.receipts :: s.receipts[fp].digest in s.objects)
    && (forall i | 0 <= i < |s.workers| :: Backed(site, s, s.workers[i]))
  }

  /** What is published stays as it is. */
  ghost predicate Keeps(s: State, s': State) {
    && (forall fp <- s.receipts :: fp in s'.receipts && s'.receipts[fp] == s.receipts[fp])
    && (forall d <- s.objects :: d in s'.objects && s'.objects[d] == s.objects[d])
  }

  lemma {:induction false} StepKeeps(site: Site, s: State, i: nat, answer: Option<Bytes>)
    requires Sound(site, s) && i < |s.workers|
    ensures Sound(site, Step(site, s, i, answer)) && Keeps(s, Step(site, s, i, answer))
  {
    var s' := Step(site, s, i, answer);
    assert Backed(site, s, s.workers[i]);
    forall j | 0 <= j < |s'.workers| ensures Backed(site, s', s'.workers[j]) {
      if j != i { assert Backed(site, s, s.workers[j]); }
    }
  }

  /** In every interleaving receipts and objects, once published, never change, and the cache stays sound. */
  lemma {:induction false} RunKeeps(site: Site, s: State, schedule: seq<(nat, Option<Bytes>)>)
    requires Sound(site, s) && forall k | 0 <= k < |schedule| :: schedule[k].0 < |s.workers|
    ensures Sound(site, Run(site, s, schedule)) && Keeps(s, Run(site, s, schedule))
    decreases |schedule|
  {
    if schedule != [] {
      StepKeeps(site, s, schedule[0].0, schedule[0].1);
      RunKeeps(site, Step(site, s, schedule[0].0, schedule[0].1), schedule[1..]);
    }
  }

  /**
   However the workers interleave, all that succeed for one request return one digest, and the
   object hashes to it.
   */
  lemma {:induction false} SuccessesAgree(site: Site, s: State, schedule: seq<(nat, Option<Bytes>)>, i: nat, j: nat)
    requires Sound(site, s) && forall k | 0 <= k < |schedule| :: schedule[k].0 < |s.workers|
    requires i < |s.workers| && j < |s.workers|
    ensures var end := Run(site, s, schedule); var (a, b) := (end.workers[i], end.workers[j]);
      a.phase.Done? && a.phase.outcome.Some? ==>
        && a.phase.outcome.value in end.objects
          && site.digest(end.objects[a.phase.outcome.value]) == a.phase.outcome.value
        && (b.phase.Done? && b.phase.outcome.Some? && site.fingerprint(b.request) == site.fingerprint(a.request) ==>
              b.phase == a.phase && b.request == a.request)
  {
    RunKeeps(site, s, schedule);
    var end := Run(site, s, schedule);
    assert Backed(site, end, end.workers[i]) && Backed(site, end, end.workers[j]);
  }

  /** An empty cache with workers that have only begun is sound. */
  lemma FreshIsSound(site: Site, requests: seq<Request>)
    ensures Sound(site, State(map[], map[], seq(|requests|, i requires 0 <= i < |requests| => Begin(requests[i]))))
  {
  }

  /** The most steps a worker can still take. */
  function StepsLeft(site: Site, w: Worker): int {
    var later := 5 * (if w.attempt < site.attempts then site.attempts - w.attempt else 0);
    match w.phase
    case ReadReceipt => later + 7
    case ReadCached => later + 6
    case Fetch => later + 5
    case LookForObject(_) => later + 4
    case StoreOrObserve(_) => later + 3
    case LinkObject(_, _) => later + 2
    case LinkReceipt(_, _) => later + 1
    case Done(_) => 0
  }

  lemma ActRunsOut(site: Site, s: State, w: Worker, answer: Option<Bytes>)
    ensures w.phase.Done? ==> Act(site, s, w, answer) == (s, w)
    ensures !w.phase.Done? ==> 0 <= StepsLeft(site, Act(site, s, w, answer).1) < StepsLeft(site, w)
  {
  }

  /** Every step of a worker not done brings it nearer its end, and no step of another takes it back. */
  lemma {:induction false} StepsRunOut(site: Site, s: State, i: nat, j: nat, answer: Option<Bytes>)
    requires i < |s.workers| && j < |s.workers|
    ensures var s' := Step(site, s, i, answer);
      && (i != j ==> s'.workers[j] == s.workers[j])
      && (!s.workers[i].phase.Done? ==> 0 <= StepsLeft(site, s'.workers[i]) < StepsLeft(site, s.workers[i]))
      && (s.workers[i].phase.Done? ==> s'.workers[i] == s.workers[i])
  {
    hide Act, StepsLeft;
    ActRunsOut(site, s, s.workers[i], answer);
  }

  // Without hash collisions the cache answers by itself.

  ghost predicate CollisionFree(site: Site) {
    forall a, b :: site.digest(a) == site.digest(b) ==> a == b
  }

  /** The bytes a worker holds passed the raster check that its metadata reports. */
  ghost predicate Checked(site: Site, s: State, w: Worker) {
    && (w.phase.LinkObject? || w.phase.LinkReceipt? ==>
      site.inspect(w.request, w.phase.bytes) == Some(w.phase.metadata))
    && (w.phase.LinkReceipt? ==> site.digest(w.phase.bytes) in s.objects)
  }

  /** Every receipt says truly what its object is. */
  ghost predicate Truthful(site: Site, s: State) {
    && (forall d <- s.objects :: site.digest(s.objects[d]) == d)
    && (forall fp <- s.receipts :: var r := s.receipts[fp];
          site.fingerprint(r.request) == fp && r.digest in s.objects
          && |s.objects[r.digest]| == r.byteCount && site.inspect(r.request, s.objects[r.digest]) == Some(r.metadata))
    && (forall i | 0 <= i < |s.workers| :: Checked(site, s, s.workers[i]))
  }

  lemma {:induction false} StepStaysTruthful(site: Site, s: State, i: nat, answer: Option<Bytes>)
    requires CollisionFree(site) && Truthful(site, s) && i < |s.workers|
    ensures Truthful(site, Step(site, s, i, answer))
  {
    var s' := Step(site, s, i, answer);
    var w := s.workers[i];
    assert Checked(site, s, w);
    if w.phase.LinkReceipt? { assert s.objects[site.digest(w.phase.bytes)] == w.phase.bytes; }
    forall j | 0 <= j < |s'.workers| ensures Checked(site, s', s'.workers[j]) {
      if j != i { assert Checked(site, s, s.workers[j]); }
    }
  }

  lemma {:induction false} RunStaysTruthful(site: Site, s: State, schedule: seq<(nat, Option<Bytes>)>)
    requires CollisionFree(site) && Truthful(site, s) && forall k | 0 <= k < |schedule| :: schedule[k].0 < |s.workers|
    ensures Truthful(site, Run(site, s, schedule))
    decreases |schedule|
  {
    if schedule != [] {
      StepStaysTruthful(site, s, schedule[0].0, schedule[0].1);
      RunStaysTruthful(site, Step(site, s, schedule[0].0, schedule[0].1), schedule[1..]);
    }
  }

  /** Once a receipt is published, every later call for its tile is answered from the cache, whoever ran in between. */
  lemma {:induction false} CachedCallsSucceed(
    site: Site, s: State, schedule: seq<(nat, Option<Bytes>)>, request: Request, first: Option<Bytes>,
      second: Option<Bytes>)
    requires CollisionFree(site) && Truthful(site, s) && forall k | 0 <= k < |schedule| :: schedule[k].0 < |s.workers|
    ensures var end := Run(site, s, schedule);
      var fp := site.fingerprint(request);
      fp in end.receipts && end.receipts[fp].request == request ==>
        var (known, w) := Act(site, end, Begin(request), first);
        Act(site, known, w, second) ==
          (end, Worker(request, Done(Some(end.receipts[fp].digest)), Some(end.receipts[fp]), 1))
  {
    RunStaysTruthful(site, s, schedule);
  }
}
