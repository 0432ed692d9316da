/** What the Box answers about its bases (runner/box.go `Bases`, `BaseDigest`). */
module BoxBases {
  import opened Options

  /** One listed base; status is PULLING, FLATTENING, READY or FAILED. */
  datatype Base = Base(name: string, digest: string, status: string)

  datatype Listing = ListError | Listed(bases: seq<Base>)

  /** The digest of the first READY base of that name. */
  function FirstReady(bases: seq<Base>, name: string): (d: Option<string>)
    ensures d.Some? ==> Base(name, d.value, "READY") in bases
    ensures d.None? ==> forall b :: b in bases ==> b.name != name || b.status != "READY"
  {
    if bases == [] then None
    else if bases[0].name == name && bases[0].status == "READY" then Some(bases[0].digest)
    else
      assert forall c :: c in bases <==> c == bases[0] || c in bases[1..];
      FirstReady(bases[1..], name)
  }

  function BaseDigest(listing: Listing, name: string): (d: Option<string>)
    ensures d.Some? ==> ListsReady(listing, name, d.value)
    ensures d.None? ==> forall x :: !ListsReady(listing, name, x)
  {
    if listing.ListError? then None else FirstReady(listing.bases, name)
  }

  predicate ListsReady(listing: Listing, name: string, digest: string) {
    listing.Listed? && Base(name, digest, "READY") in listing.bases
  }

  predicate ListsStatus(listing: Listing, name: string, status: string) {
    listing.Listed? && exists b :: b in listing.bases && b.name == name && b.status == status
  }
}

/** What both bases' machines share over whole histories. */
module BaseHistories {
  import opened BoxBases
  import opened Options
  import opened Sequences

  /** A base's machine: its first state, its step, the digest it caches, the Forget of a digest, and the
      listing an event brings. */
  datatype Machine<!S, !E> = Machine(
    initial: S, next: (S, E) -> S, digest: S -> string, forget: string -> E, listing: E -> Option<Listing>)

  function After<S, E>(m: Machine<S, E>, events: seq<E>): S {
    if events == [] then m.initial else m.next(After(m, events[..|events| - 1]), events[|events| - 1])
  }

  predicate Shows<S, E>(m: Machine<S, E>, name: string, e: E, digest: string) {
    m.listing(e).Some? && ListsReady(m.listing(e).value, name, digest)
  }

  /** Some listing of these events had this digest READY under this name. */
  ghost predicate SeenReady<S, E>(m: Machine<S, E>, name: string, events: seq<E>, digest: string) {
    exists e :: e in events && Shows(m, name, e, digest)
  }

  /** A digest is cached when it is listed READY, and by nothing else; a Forget clears the digest it
      names and does nothing to another. */
  ghost predicate Caches<S(!new), E(!new)>(m: Machine<S, E>, name: string) {
    && (forall s, e :: CachesAt(m, name, s, e))
    && (forall s, d :: m.digest(s) != d ==> m.next(s, m.forget(d)) == s)
    && (forall s :: m.digest(m.next(s, m.forget(m.digest(s)))) == "")
  }

  predicate CachesAt<S, E>(m: Machine<S, E>, name: string, s: S, e: E) {
    var d := m.digest(m.next(s, e)); d == "" || d == m.digest(s) || Shows(m, name, e, d)
  }

  lemma {:induction false} AfterOneMore<S, E>(m: Machine<S, E>, events: seq<E>, e: E)
    ensures After(m, events + [e]) == m.next(After(m, events), e)
  {
    assert (events + [e])[..|events|] == events;
  }

  lemma {:induction false} SameFuture<S, E>(m: Machine<S, E>, a: seq<E>, b: seq<E>, later: seq<E>)
    requires After(m, a) == After(m, b)
    ensures After(m, a + later) == After(m, b + later)
  {
    hide *;
    if later == [] {
      assert a + later == a && b + later == b;
    } else {
      var init, last := later[..|later| - 1], later[|later| - 1];
      SameFuture(m, a, b, init);
      AfterOneMore(m, a + init, last);
      AfterOneMore(m, b + init, last);
      ConcatLast(a, later);
      ConcatLast(b, later);
    }
  }

  /** Where a cached digest comes from: it was cached already, or the last event listed it. */
  lemma {:induction false} SeenLater<S(!new), E(!new)>(m: Machine<S, E>, name: string, before: seq<E>, e: E, s: S)
    requires CachesAt(m, name, s, e)
    requires m.digest(s) != "" ==> SeenReady(m, name, before, m.digest(s))
    ensures var digest := m.digest(m.next(s, e)); digest != "" ==> SeenReady(m, name, before + [e], digest)
  {
    var digest := m.digest(m.next(s, e));
    hide Shows;
    if digest != "" {
      if digest == m.digest(s) {
        var x :| x in before && Shows(m, name, x, digest);
        assert x in before + [e];
      } else {
        assert e in before + [e] && Shows(m, name, e, digest);
      }
    }
  }

  /** A Forget that comes late, for a digest that is no longer the cached one, changes nothing then or
      in any future: what a later build, pull or listing cached stays. */
  lemma {:induction false} StaleForget<S(!new), E(!new)>(m: Machine<S, E>, name: string, before: seq<E>, stale: string,
                                                         later: seq<E>)
    requires Caches(m, name) && stale != m.digest(After(m, before))
    ensures After(m, (before + [m.forget(stale)]) + later) == After(m, before + later)
  {
    AfterOneMore(m, before, m.forget(stale));
    SameFuture(m, before + [m.forget(stale)], before, later);
  }

  /** And one that comes in time makes the base look again: whatever digest is cached after it was
      listed READY after it. */
  lemma {:induction false} Forgotten<S(!new), E(!new)>(m: Machine<S, E>, name: string, before: seq<E>, later: seq<E>)
    requires Caches(m, name)
    ensures var events := before + [m.forget(m.digest(After(m, before)))] + later;
            m.digest(After(m, events)) != "" ==> SeenReady(m, name, later, m.digest(After(m, events)))
  {
    var start := before + [m.forget(m.digest(After(m, before)))];
    hide After, SeenReady, CachesAt;
    if later == [] {
      assert start + later == start;
      AfterOneMore(m, before, m.forget(m.digest(After(m, before))));
    } else {
      var n := |later| - 1;
      ConcatLast(start, later);
      AfterOneMore(m, start + later[..n], later[n]);
      Forgotten(m, name, before, later[..n]);
      SeenLater(m, name, later[..n], later[n], After(m, start + later[..n]));
      assert later[..n] + [later[n]] == later;
    }
  }
}

/**
 The flow sandbox base (runner/flow.go `flowBase`): found by name on the Box or built there, at most
 one build at a time. Every method runs under the base's mutex, so any interleaving of its callers
 is a sequence of the events below.
 */
module FlowBases {
  import opened BoxBases
  import opened Options
  import H = BaseHistories

  /** The fields of a flowBase, and how many build goroutines are live. */
  datatype State = State(digest: string, building: bool, failed: bool, rebuilt: bool, live: nat)

  const INITIAL := State("", false, false, false, 0)

  datatype Answer = Digest(digest: string) | StillBuilding | BaseFailed | ListFailed

  datatype Event =
    | Ask(listing: Listing)
    | Forget(digest: string)
    | BuildEnds(submitted: bool, finished: bool, listing: Listing)

  datatype Decision = Use(digest: string) | Refuse | Wait | Build

  /** The first listed base of that name that settles the matter. */
  function Decide(bases: seq<Base>, name: string, rebuilt: bool): (d: Decision)
    ensures d.Use? ==> Base(name, d.digest, "READY") in bases
    ensures d.Refuse? ==> rebuilt && exists b :: b in bases && b.name == name && b.status == "FAILED"
    ensures d.Wait? ==> exists b :: b in bases && b.name == name && b.status != "READY" && b.status != "FAILED"
    ensures d.Build? <==> forall b :: b in bases && b.name == name ==> b.status == "FAILED" && !rebuilt
  {
    if bases == [] then Build
    else
      var b := bases[0];
      assert forall c :: c in bases <==> c == b || c in bases[1..];
      if b.name != name then Decide(bases[1..], name, rebuilt)
      else if b.status == "READY" then Use(b.digest)
      else if b.status != "FAILED" then Wait
      else if rebuilt then Refuse
      else Decide(bases[1..], name, rebuilt)
  }

  function Reply(name: string, s: State, listing: Listing): Answer {
    if s.digest != "" then Digest(s.digest)
    else if s.failed then BaseFailed
    else if s.building then StillBuilding
    else if listing.ListError? then ListFailed
    else
      match Decide(listing.bases, name, s.rebuilt)
      case Use(d) => Digest(d)
      case Refuse => BaseFailed
      case Wait => StillBuilding
      case Build => StillBuilding
  }

  predicate StartsBuild(name: string, s: State, listing: Listing) {
    s.digest == "" && !s.failed && !s.building && listing.Listed? && Decide(listing.bases, name, s.rebuilt).Build?
  }

  function Next(name: string, s: State, e: Event): State {
    match e
    case Ask(listing) =>
      if StartsBuild(name, s, listing) then s.(building := true, rebuilt := true, live := s.live + 1)
      else if s.digest == "" && Reply(name, s, listing).Digest? then s.(digest := Reply(name, s, listing).digest)
      else s
    case Forget(d) => if s.digest == d then s.(digest := "") else s
    case BuildEnds(submitted, finished, listing) =>
      var t := s.(building := false, live := if s.live > 0 then s.live - 1 else 0);
      var d := BaseDigest(listing, name);
      if submitted && finished && d.Some? then t.(digest := d.value) else t.(failed := true)
  }

  class FlowBase {
    const name: string
    var digest: string
    var building: bool
    var failed: bool
    var rebuilt: bool
    ghost var live: nat

    ghost function Abs(): State
      reads this
    {
      State(digest, building, failed, rebuilt, live)
    }

    constructor (name: string)
      ensures this.name == name && Abs() == INITIAL
    {
      this.name := name;
      digest, building, failed, rebuilt, live := "", false, false, false, 0;
    }

    /** `listing` is what the Box answers if it comes to asking. */
    method AskDigest(listing: Listing) returns (a: Answer)
      modifies this
      ensures Abs() == Next(name, old(Abs()), Ask(listing)) && a == Reply(name, old(Abs()), listing)
    {
      if digest != "" {
        return Digest(digest);
      }
      if failed {
        return BaseFailed;
      }
      if building {
        return StillBuilding;
      }
      if listing.ListError? {
        return ListFailed;
      }
      var bases := listing.bases;
      for i := 0 to |bases|
        invariant Abs() == old(Abs())
        invariant Decide(bases, name, rebuilt) == Decide(bases[i..], name, rebuilt)
      {
        assert bases[i..][1..] == bases[i + 1..];
        var b := bases[i];
        if b.name != name {
          continue;
        }
        if b.status == "READY" {
          digest := b.digest;
          return Digest(digest);
        } else if b.status == "FAILED" {
          if rebuilt {
            return BaseFailed;
          }
        } else {
          return StillBuilding;
        }
      }
      building, rebuilt := true, true;
      live := live + 1;
      return StillBuilding;
    }

    method ForgetDigest(d: string)
      modifies this
      ensures Abs() == Next(name, old(Abs()), Forget(d))
    {
      if digest == d {
        digest := "";
      }
    }

    /** The end of `build`: whether the build was accepted and finished, and what the Box then lists. */
    method EndBuild(submitted: bool, finished: bool, listing: Listing)
      requires live > 0
      modifies this
      ensures Abs() == Next(name, old(Abs()), BuildEnds(submitted, finished, listing))
    {
      var d := if submitted && finished then BaseDigest(listing, name) else None;
      building := false;
      live := live - 1;
      if d.None? {
        failed := true;
        return;
      }
      digest := d.value;
    }
  }

  // ── every run ──────────────────────────────────────────────────────────────

  /** The base called `name`, as a machine. */
  function AsMachine(name: string): H.Machine<State, Event> {
    H.Machine(INITIAL, (s, e) => Next(name, s, e), (s: State) => s.digest, (d: string) => Forget(d),
              (e: Event) => if e.Forget? then None else Some(e.listing))
  }

  function After(name: string, events: seq<Event>): State {
    H.After(AsMachine(name), events)
  }

  /** A build can only end while one is live. */
  ghost predicate Legal(name: string, events: seq<Event>) {
    forall i :: 0 <= i < |events| && events[i].BuildEnds? ==> After(name, events[..i]).live > 0
  }

  /** Builds started by this runner. */
  function Builds(name: string, events: seq<Event>): nat {
    if events == [] then 0
    else
      var before, e := events[..|events| - 1], events[|events| - 1];
      Builds(name, before) + (if e.Ask? && StartsBuild(name, After(name, before), e.listing) then 1 else 0)
  }

  /** Some listing the runner saw had this digest READY under this name. */
  ghost predicate SeenReady(name: string, events: seq<Event>, digest: string) {
    H.SeenReady(AsMachine(name), name, events, digest)
  }

  lemma {:induction false} LegalPrefix(name: string, events: seq<Event>, k: nat)
    requires Legal(name, events) && k <= |events|
    ensures Legal(name, events[..k])
  {
    forall i | 0 <= i < k && events[..k][i].BuildEnds? ensures After(name, events[..k][..i]).live > 0 {
      assert events[..k][..i] == events[..i];
    }
  }

  ghost predicate Holds(name: string, events: seq<Event>, s: State) {
    && (s.building <==> s.live == 1) && s.live <= 1
    && (s.digest != "" ==> SeenReady(name, events, s.digest) && !s.building)
    && (s.failed ==> s.digest == "" && !s.building)
    && (s.rebuilt <==> Builds(name, events) > 0)
    && (s.building ==> s.rebuilt)
  }

  /**
   In every reachable state: `building` is set exactly while one build is live, and never two are; a
   cached digest was listed READY under the name; a failed base has no digest and no build; and
   `rebuilt` tells whether any build was ever started.
   */
  lemma {:induction false} Invariant(name: string, events: seq<Event>)
    requires Legal(name, events)
    ensures Holds(name, events, After(name, events))
  {
    hide Next, Holds;
    if events != [] {
      var n := |events| - 1;
      LegalPrefix(name, events, n);
      Invariant(name, events[..n]);
      Carry(name, events[..n], events[n]);
      assert events[..n] + [events[n]] == events;
    } else {
      NothingYet(name);
    }
  }

  lemma {:induction false} NothingYet(name: string)
    ensures Holds(name, [], INITIAL)
  {
  }

  lemma {:induction false} Carry(name: string, before: seq<Event>, e: Event)
    requires Holds(name, before, After(name, before))
    requires e.BuildEnds? ==> After(name, before).live > 0
    ensures Holds(name, before + [e], Next(name, After(name, before), e))
  {
    SeenStays(name, before, e, After(name, before));
    OneMoreBuild(name, before, e);
    StepKeeps(name, After(name, before), e);
    hide SeenReady, Next, After, Builds, StartsBuild;
  }

  lemma {:induction false} OneMoreBuild(name: string, before: seq<Event>, e: Event)
    ensures Builds(name, before + [e])
            == Builds(name, before) + (if e.Ask? && StartsBuild(name, After(name, before), e.listing) then 1 else 0)
  {
    hide After, StartsBuild;
    assert (before + [e])[..|before|] == before;
  }

  /** One step of what the invariant says of the fields alone. */
  lemma {:induction false} StepKeeps(name: string, s: State, e: Event)
    requires (s.building <==> s.live == 1) && s.live <= 1 && (s.building ==> s.rebuilt)
    requires (s.digest != "" ==> !s.building) && (s.failed ==> s.digest == "" && !s.building)
    requires e.BuildEnds? ==> s.live > 0
    ensures var t := Next(name, s, e);
            && (t.building <==> t.live == 1) && t.live <= 1 && (t.building ==> t.rebuilt)
            && (t.digest != "" ==> !t.building) && (t.failed ==> t.digest == "" && !t.building)
            && (t.rebuilt <==> s.rebuilt || (e.Ask? && StartsBuild(name, s, e.listing)))
  {
    hide Decide, BaseDigest;
  }

  /** Every digest answered was listed READY under the name, by this listing or an earlier one. */
  lemma {:induction false} AnswersAreReady(name: string, events: seq<Event>, listing: Listing)
    requires Legal(name, events) && Reply(name, After(name, events), listing).Digest?
    ensures SeenReady(name, events + [Ask(listing)], Reply(name, After(name, events), listing).digest)
  {
    Invariant(name, events);
    var s := After(name, events);
    if s.digest != "" {
      var e :| e in events && H.Shows(AsMachine(name), name, e, s.digest);
      assert e in events + [Ask(listing)];
    } else {
      assert Ask(listing) in events + [Ask(listing)];
      assert H.Shows(AsMachine(name), name, Ask(listing), Reply(name, s, listing).digest);
    }
  }

  /** A failed build is for good: no later event clears it, caches a digest or starts a build. */
  lemma {:induction false} FailedIsForGood(name: string, events: seq<Event>, more: seq<Event>)
    requires Legal(name, events + more) && After(name, events).failed
    ensures After(name, events + more).failed && After(name, events + more).digest == ""
    ensures Builds(name, events + more) == Builds(name, events)
  {
    var all := events + more;
    if more == [] {
      assert all == events;
      Invariant(name, all);
    } else {
      hide After, Builds;
      var n := |more| - 1;
      var before := events + more[..n];
      assert all == before + [more[n]];
      assert all[..|before|] == before && all[|before|] == more[n];
      LegalPrefix(name, all, |before|);
      FailedIsForGood(name, events, more[..n]);
      Invariant(name, before);
      StayFailed(name, before, more[n]);
    }
  }

  lemma {:induction false} StayFailed(name: string, before: seq<Event>, e: Event)
    requires After(name, before).failed && Holds(name, before, After(name, before))
    requires e.BuildEnds? ==> After(name, before).live > 0
    ensures After(name, before + [e]) == After(name, before) && Builds(name, before + [e]) == Builds(name, before)
  {
    assert (before + [e])[..|before|] == before;
  }

  /** A build that came to nothing: not accepted, not finished, or no READY base of that name after it. */
  ghost predicate CameToNothing(name: string, e: Event) {
    e.BuildEnds? && !(e.submitted && e.finished && exists d :: ListsReady(e.listing, name, d))
  }

  /** Exactly when a base counts as failed: when some build of it came to nothing. */
  lemma {:induction false} WhenFailed(name: string, events: seq<Event>)
    ensures After(name, events).failed <==> exists e :: e in events && CameToNothing(name, e)
  {
    hide Next, CameToNothing;
    if events != [] {
      var init, last := events[..|events| - 1], events[|events| - 1];
      assert events == init + [last];
      WhenFailed(name, init);
      H.AfterOneMore(AsMachine(name), init, last);
      FailsNext(name, After(name, init), last);
    }
  }

  lemma {:induction false} FailsNext(name: string, s: State, e: Event)
    ensures Next(name, s, e).failed <==> s.failed || CameToNothing(name, e)
  {
    hide Decide, ListsReady, FirstReady;
    if e.BuildEnds? && BaseDigest(e.listing, name).Some? {
      assert ListsReady(e.listing, name, BaseDigest(e.listing, name).value);
    }
  }

  /**
   After a build that was accepted and finished, and listed READY then, every Ask is answered by a digest
   listed READY for it, whatever the Box lists in the meantime, until one is forgotten.
   */
  lemma {:induction false} BuiltIsAnswered(name: string, before: seq<Event>, listing: Listing, later: seq<Event>,
                                           last: Listing)
    requires Legal(name, before + [BuildEnds(true, true, listing)] + later)
    requires exists d :: ListsReady(listing, name, d)
    requires forall d :: ListsReady(listing, name, d) ==> d != ""
    requires forall e :: e in later ==> !e.Forget?
    ensures var s := After(name, before + [BuildEnds(true, true, listing)] + later);
            Reply(name, s, last).Digest? && ListsReady(listing, name, Reply(name, s, last).digest)
  {
    var end := BuildEnds(true, true, listing);
    var built := before + [end];
    assert (built + later)[..|built|] == built && built[..|before|] == before;
    LegalPrefix(name, built + later, |built|);
    LegalPrefix(name, built, |before|);
    Invariant(name, before);
    assert built[|before|] == end && After(name, built[..|before|]).live > 0;
    H.AfterOneMore(AsMachine(name), before, end);
    assert ListsReady(listing, name, After(name, built).digest) && After(name, built).live == 0;
    hide Next, ListsReady, Decide, BaseDigest;
    Settles(name, built, later);
  }

  /** A base that has its digest and no build is as it was after any events but a Forget. */
  lemma {:induction false} Settles(name: string, events: seq<Event>, later: seq<Event>)
    requires Legal(name, events + later) && After(name, events).digest != "" && After(name, events).live == 0
    requires forall e :: e in later ==> !e.Forget?
    ensures After(name, events + later) == After(name, events)
  {
    if later == [] {
      assert events + later == events;
    } else {
      var n := |later| - 1;
      var all, init := events + later, events + later[..n];
      assert all[..|init|] == init && all == init + [later[n]];
      LegalPrefix(name, all, |init|);
      Settles(name, events, later[..n]);
      assert all[|init|] == later[n] && all[..|init|] == init;
      assert later[n] in later;
      H.AfterOneMore(AsMachine(name), init, later[n]);
      hide Decide, BaseDigest;
    }
  }

  /** A listed base that settles an Ask: of that name, and not a FAILED one that may be built again. */
  predicate Decisive(b: Base, name: string, rebuilt: bool) {
    b.name == name && (b.status != "FAILED" || rebuilt)
  }

  lemma {:induction false} FirstDecides(bases: seq<Base>, name: string, rebuilt: bool, i: nat)
    requires i <= |bases| && forall j :: 0 <= j < i ==> !Decisive(bases[j], name, rebuilt)
    ensures i == |bases| ==> Decide(bases, name, rebuilt) == Build
    ensures i < |bases| && Decisive(bases[i], name, rebuilt) ==>
              Decide(bases, name, rebuilt)
              == if bases[i].status == "READY" then Use(bases[i].digest)
                 else if bases[i].status == "FAILED" then Refuse else Wait
  {
    if i > 0 {
      assert !Decisive(bases[0], name, rebuilt);
      forall j | 0 <= j < i - 1 ensures !Decisive(bases[1..][j], name, rebuilt) {
        assert !Decisive(bases[j + 1], name, rebuilt);
      }
      FirstDecides(bases[1..], name, rebuilt, i - 1);
    }
  }

  /**
   What an Ask answers, and what it changes. A cached digest is the answer, then a failure, then a build
   under way. Else the first base listed that is decisive settles it: a READY one is cached, a FAILED one
   refused, any other waited for. Without one a build is started.
   */
  lemma {:induction false} AskAnswers(name: string, s: State, listing: Listing, i: nat)
    requires listing.Listed? ==>
               && i <= |listing.bases| && (forall j :: 0 <= j < i ==> !Decisive(listing.bases[j], name, s.rebuilt))
               && (i < |listing.bases| ==> Decisive(listing.bases[i], name, s.rebuilt))
    ensures (Reply(name, s, listing), Next(name, s, Ask(listing)))
            == if s.digest != "" then (Digest(s.digest), s)
               else if s.failed then (BaseFailed, s)
               else if s.building then (StillBuilding, s)
               else if listing.ListError? then (ListFailed, s)
               else if i == |listing.bases| then
                 (StillBuilding, s.(building := true, rebuilt := true, live := s.live + 1))
               else if listing.bases[i].status == "READY" then
                 (Digest(listing.bases[i].digest), s.(digest := listing.bases[i].digest))
               else if listing.bases[i].status == "FAILED" then (BaseFailed, s)
               else (StillBuilding, s)
  {
    hide Decide, Decisive;
    if listing.Listed? {
      FirstDecides(listing.bases, name, s.rebuilt, i);
    }
  }

  /** A base listed FAILED is built again only if this runner has started no build before. */
  lemma {:induction false} FailedIsRebuiltOnce(name: string, events: seq<Event>, listing: Listing)
    requires Legal(name, events)
    requires StartsBuild(name, After(name, events), listing) && ListsStatus(listing, name, "FAILED")
    ensures Builds(name, events) == 0
  {
    Invariant(name, events);
  }

  lemma {:induction false} BaseCaches(name: string)
    ensures H.Caches(AsMachine(name), name)
  {
  }

  lemma {:induction false} SeenStays(name: string, before: seq<Event>, e: Event, s: State)
    requires s.digest != "" ==> SeenReady(name, before, s.digest)
    ensures var digest := Next(name, s, e).digest; digest != "" ==> SeenReady(name, before + [e], digest)
  {
    BaseCaches(name);
    hide Next;
    assert H.CachesAt(AsMachine(name), name, s, e);
    H.SeenLater(AsMachine(name), name, before, e, s);
  }

  /** A Forget that comes late changes nothing then or in any future. */
  lemma {:induction false} StaleForgetIsHarmless(name: string, before: seq<Event>, stale: string, later: seq<Event>)
    requires stale != After(name, before).digest
    ensures After(name, (before + [Forget(stale)]) + later) == After(name, before + later)
  {
    BaseCaches(name);
    hide Next;
    H.StaleForget(AsMachine(name), name, before, stale, later);
  }

  /** Whatever digest is cached after a Forget that comes in time was listed READY after it. */
  lemma {:induction false} ForgottenIsLookedUpAgain(name: string, before: seq<Event>, later: seq<Event>)
    ensures var events := before + [Forget(After(name, before).digest)] + later;
            After(name, events).digest != "" ==> SeenReady(name, later, After(name, events).digest)
  {
    BaseCaches(name);
    hide Next;
    H.Forgotten(AsMachine(name), name, before, later);
  }
}

/**
 The shell base (runner/worker.go `namedBase`): read by name, or pulled under it in the background,
 with failed pulls spaced apart. Times are nanoseconds on the runner's clock.
 */
module NamedBases {
  import opened BoxBases
  import opened Options
  import H = BaseHistories

  /** shellPullRetry, one minute. */
  const RETRY: int := 60_000_000_000

  datatype State = State(digest: string, pulling: bool, pullErr: bool, pullFailed: int, live: nat)

  const INITIAL := State("", false, false, 0, 0)

  datatype Answer = Digest(digest: string) | StillPulling | NoImage | PullFailed | ListFailed

  datatype Event =
    | Ask(listing: Listing, now: int)
    | Forget(digest: string)
    | PullEnds(accepted: bool, finished: bool, waited: bool, listing: Listing, now: int)

  datatype Decision = Use(digest: string) | Wait | Missing

  function Decide(bases: seq<Base>, name: string): (d: Decision)
    ensures d.Use? ==> Base(name, d.digest, "READY") in bases
    ensures d.Wait? ==> exists b :: b in bases && b.name == name && (b.status == "PULLING" || b.status == "FLATTENING")
    ensures d.Missing? <==> forall b :: b in bases && b.name == name ==>
                              b.status != "READY" && b.status != "PULLING" && b.status != "FLATTENING"
  {
    if bases == [] then Missing
    else
      var b := bases[0];
      assert forall c :: c in bases <==> c == b || c in bases[1..];
      if b.name != name then Decide(bases[1..], name)
      else if b.status == "READY" then Use(b.digest)
      else if b.status == "PULLING" || b.status == "FLATTENING" then Wait
      else Decide(bases[1..], name)
  }

  /** A base to be read or pulled: its name, and the image to pull, "" for none. */
  datatype Config = Config(name: string, image: string)

  function Reply(c: Config, s: State, listing: Listing, now: int): Answer {
    if s.digest != "" then Digest(s.digest)
    else if s.pulling then StillPulling
    else if listing.ListError? then ListFailed
    else
      match Decide(listing.bases, c.name)
      case Use(d) => Digest(d)
      case Wait => StillPulling
      case Missing =>
        if c.image == "" then NoImage
        else if s.pullErr && now - s.pullFailed < RETRY then PullFailed
        else StillPulling
  }

  predicate StartsPull(c: Config, s: State, listing: Listing, now: int) {
    && s.digest == "" && !s.pulling && listing.Listed? && Decide(listing.bases, c.name).Missing?
    && c.image != "" && !(s.pullErr && now - s.pullFailed < RETRY)
  }

  /** Whether a pull that ended this way succeeded: an operation answered FINISHED is not waited on. */
  function Pulled(c: Config, e: Event): Option<string>
    requires e.PullEnds?
  {
    if e.accepted && (e.finished || e.waited) then BaseDigest(e.listing, c.name) else None
  }

  function Next(c: Config, s: State, e: Event): State {
    match e
    case Ask(listing, now) =>
      if StartsPull(c, s, listing, now) then s.(pulling := true, live := s.live + 1)
      else if s.digest == "" && Reply(c, s, listing, now).Digest? then s.(digest := Reply(c, s, listing, now).digest)
      else s
    case Forget(d) => if s.digest == d then s.(digest := "") else s
    case PullEnds(_, _, _, _, now) =>
      var t := s.(pulling := false, live := if s.live > 0 then s.live - 1 else 0);
      var d := Pulled(c, e);
      if d.Some? then t.(digest := d.value, pullErr := false) else t.(pullErr := true, pullFailed := now)
  }

  class NamedBase {
    const config: Config
    var digest: string
    var pulling: bool
    var pullErr: bool
    var pullFailed: int
    ghost var live: nat

    ghost function Abs(): State
      reads this
    {
      State(digest, pulling, pullErr, pullFailed, live)
    }

    constructor (config: Config)
      ensures this.config == config && Abs() == INITIAL
    {
      this.config := config;
      digest, pulling, pullErr, pullFailed, live := "", false, false, 0, 0;
    }

    method AskDigest(listing: Listing, now: int) returns (a: Answer)
      modifies this
      ensures Abs() == Next(config, old(Abs()), Ask(listing, now)) && a == Reply(config, old(Abs()), listing, now)
    {
      if digest != "" {
        return Digest(digest);
      }
      if pulling {
        return StillPulling;
      }
      if listing.ListError? {
        return ListFailed;
      }
      var bases := listing.bases;
      for i := 0 to |bases|
        invariant Abs() == old(Abs())
        invariant Decide(bases, config.name) == Decide(bases[i..], config.name)
      {
        assert bases[i..][1..] == bases[i + 1..];
        var b := bases[i];
        if b.name != config.name {
          continue;
        }
        if b.status == "READY" {
          digest := b.digest;
          return Digest(digest);
        } else if b.status == "PULLING" || b.status == "FLATTENING" {
          return StillPulling;
        }
      }
      if config.image == "" {
        return NoImage;
      }
      if pullErr && now - pullFailed < RETRY {
        return PullFailed;
      }
      pulling := true;
      live := live + 1;
      return StillPulling;
    }

    method ForgetDigest(d: string)
      modifies this
      ensures Abs() == Next(config, old(Abs()), Forget(d))
    {
      if digest == d {
        digest := "";
      }
    }

    method EndPull(accepted: bool, finished: bool, waited: bool, listing: Listing, now: int)
      requires live > 0
      modifies this
      ensures Abs() == Next(config, old(Abs()), PullEnds(accepted, finished, waited, listing, now))
    {
      var d := if accepted && (finished || waited) then BaseDigest(listing, config.name) else None;
      pulling := false;
      live := live - 1;
      if d.None? {
        pullErr, pullFailed := true, now;
        return;
      }
      digest, pullErr := d.value, false;
    }
  }

  // ── every run ──────────────────────────────────────────────────────────────

  /** A base so configured, as a machine. */
  function AsMachine(c: Config): H.Machine<State, Event> {
    H.Machine(INITIAL, (s, e) => Next(c, s, e), (s: State) => s.digest, (d: string) => Forget(d),
              (e: Event) => if e.Forget? then None else Some(e.listing))
  }

  function After(c: Config, events: seq<Event>): State {
    H.After(AsMachine(c), events)
  }

  ghost predicate Legal(c: Config, events: seq<Event>) {
    forall i :: 0 <= i < |events| && events[i].PullEnds? ==> After(c, events[..i]).live > 0
  }

  ghost predicate SeenReady(c: Config, events: seq<Event>, digest: string) {
    H.SeenReady(AsMachine(c), c.name, events, digest)
  }

  /** The last pull that ended. */
  function LastEnd(events: seq<Event>): (e: Option<Event>)
    ensures e.Some? ==> e.value.PullEnds?
  {
    if events == [] then None
    else
      var last := events[|events| - 1];
      if last.PullEnds? then Some(last) else LastEnd(events[..|events| - 1])
  }

  ghost predicate Holds(c: Config, events: seq<Event>, s: State) {
    && (s.pulling <==> s.live == 1) && s.live <= 1
    && (s.digest != "" ==> SeenReady(c, events, s.digest) && !s.pulling)
    && (s.pullErr <==> LastEnd(events).Some? && Pulled(c, LastEnd(events).value).None?)
    && (s.pullErr ==> s.pullFailed == LastEnd(events).value.now)
  }

  /**
   In every reachable state: `pulling` is set exactly while one pull is live, and never two are; a
   cached digest was listed READY under the name; and the recorded failure is that of the last pull.
   */
  lemma {:induction false} Invariant(c: Config, events: seq<Event>)
    requires Legal(c, events)
    ensures Holds(c, events, After(c, events))
  {
    if events != [] {
      var n := |events| - 1;
      forall i | 0 <= i < n && events[..n][i].PullEnds? ensures After(c, events[..n][..i]).live > 0 {
        assert events[..n][..i] == events[..i];
      }
      Invariant(c, events[..n]);
      Carry(c, events[..n], events[n]);
      assert events[..n] + [events[n]] == events;
    }
  }

  lemma {:induction false} Carry(c: Config, before: seq<Event>, e: Event)
    requires Holds(c, before, After(c, before))
    requires e.PullEnds? ==> After(c, before).live > 0
    ensures Holds(c, before + [e], Next(c, After(c, before), e))
  {
    hide SeenReady, BaseDigest, FirstReady, Decide, After;
    var events := before + [e];
    assert events[..|events| - 1] == before && events[|events| - 1] == e;
    SeenStays(c, before, e, After(c, before));
  }

  lemma {:induction false} AnswersAreReady(c: Config, events: seq<Event>, listing: Listing, now: int)
    requires Legal(c, events) && Reply(c, After(c, events), listing, now).Digest?
    ensures SeenReady(c, events + [Ask(listing, now)], Reply(c, After(c, events), listing, now).digest)
  {
    Invariant(c, events);
    var s, ask := After(c, events), Ask(listing, now);
    if s.digest != "" {
      var e :| e in events && H.Shows(AsMachine(c), c.name, e, s.digest);
      assert e in events + [ask];
    } else {
      assert ask in events + [ask];
    }
  }

  /** Exactly when the last pull counts as failed: when it was not accepted, came to no end, or left no
      READY base of that name. */
  lemma {:induction false} WhenPullFailed(c: Config, events: seq<Event>)
    requires Legal(c, events)
    ensures After(c, events).pullErr
            <==> LastEnd(events).Some?
                 && var e := LastEnd(events).value;
                    !(e.accepted && (e.finished || e.waited) && exists d :: ListsReady(e.listing, c.name, d))
  {
    Invariant(c, events);
    hide ListsReady, After;
    if LastEnd(events).Some? {
      var e := LastEnd(events).value;
      if BaseDigest(e.listing, c.name).Some? {
        assert ListsReady(e.listing, c.name, BaseDigest(e.listing, c.name).value);
      }
    }
  }

  /** After a pull that was accepted, came to its end and is listed READY then, every Ask is answered by a
      digest listed READY for it, until one is forgotten. */
  lemma {:induction false} PulledIsAnswered(c: Config, before: seq<Event>, end: Event, later: seq<Event>, last: Listing,
                                            now: int)
    requires Legal(c, before + [end] + later) && end.PullEnds? && end.accepted && (end.finished || end.waited)
    requires exists d :: ListsReady(end.listing, c.name, d)
    requires forall d :: ListsReady(end.listing, c.name, d) ==> d != ""
    requires forall e :: e in later ==> !e.Forget?
    ensures var s := After(c, before + [end] + later);
            Reply(c, s, last, now).Digest? && ListsReady(end.listing, c.name, Reply(c, s, last, now).digest)
  {
    var pulled := before + [end];
    assert (pulled + later)[..|pulled|] == pulled && pulled[..|before|] == before;
    LegalPrefix(c, pulled + later, |pulled|);
    LegalPrefix(c, pulled, |before|);
    Invariant(c, before);
    assert pulled[|before|] == end && After(c, pulled[..|before|]).live > 0;
    H.AfterOneMore(AsMachine(c), before, end);
    assert ListsReady(end.listing, c.name, After(c, pulled).digest) && After(c, pulled).live == 0;
    hide Next, ListsReady, Decide, BaseDigest;
    Settles(c, pulled, later);
  }

  lemma {:induction false} LegalPrefix(c: Config, events: seq<Event>, k: nat)
    requires Legal(c, events) && k <= |events|
    ensures Legal(c, events[..k])
  {
    forall i | 0 <= i < k && events[..k][i].PullEnds? ensures After(c, events[..k][..i]).live > 0 {
      assert events[..k][..i] == events[..i];
    }
  }

  /** A base that has its digest and no pull is as it was after any events but a Forget. */
  lemma {:induction false} Settles(c: Config, events: seq<Event>, later: seq<Event>)
    requires Legal(c, events + later) && After(c, events).digest != "" && After(c, events).live == 0
    requires forall e :: e in later ==> !e.Forget?
    ensures After(c, events + later) == After(c, events)
  {
    if later == [] {
      assert events + later == events;
    } else {
      var n := |later| - 1;
      var all, init := events + later, events + later[..n];
      assert all[..|init|] == init && all == init + [later[n]];
      LegalPrefix(c, all, |init|);
      Settles(c, events, later[..n]);
      assert all[|init|] == later[n] && all[..|init|] == init;
      assert later[n] in later;
      H.AfterOneMore(AsMachine(c), init, later[n]);
      hide Decide, BaseDigest;
    }
  }

  /** A listed base that settles an Ask: of that name, and ready or on its way. */
  predicate Decisive(b: Base, name: string) {
    b.name == name && (b.status == "READY" || b.status == "PULLING" || b.status == "FLATTENING")
  }

  lemma {:induction false} FirstDecides(bases: seq<Base>, name: string, i: nat)
    requires i <= |bases| && forall j :: 0 <= j < i ==> !Decisive(bases[j], name)
    ensures i == |bases| ==> Decide(bases, name) == Missing
    ensures i < |bases| && Decisive(bases[i], name) ==>
              Decide(bases, name) == if bases[i].status == "READY" then Use(bases[i].digest) else Wait
  {
    if i > 0 {
      assert !Decisive(bases[0], name);
      forall j | 0 <= j < i - 1 ensures !Decisive(bases[1..][j], name) {
        assert !Decisive(bases[j + 1], name);
      }
      FirstDecides(bases[1..], name, i - 1);
    }
  }

  /**
   What an Ask answers, and what it changes: a cached digest, then a pull under way; else the first base
   listed that is ready, which is cached, or on its way; else, if there is an image to pull, a pull is
   started, unless the last one failed less than shellPullRetry ago.
   */
  lemma {:induction false} AskAnswers(c: Config, s: State, listing: Listing, now: int, i: nat)
    requires listing.Listed? ==>
               && i <= |listing.bases| && (forall j :: 0 <= j < i ==> !Decisive(listing.bases[j], c.name))
               && (i < |listing.bases| ==> Decisive(listing.bases[i], c.name))
    ensures (Reply(c, s, listing, now), Next(c, s, Ask(listing, now)))
            == if s.digest != "" then (Digest(s.digest), s)
               else if s.pulling then (StillPulling, s)
               else if listing.ListError? then (ListFailed, s)
               else if i < |listing.bases| then
                 if listing.bases[i].status == "READY" then
                   (Digest(listing.bases[i].digest), s.(digest := listing.bases[i].digest))
                 else (StillPulling, s)
               else if c.image == "" then (NoImage, s)
               else if s.pullErr && now - s.pullFailed < 60_000_000_000 then (PullFailed, s)
               else (StillPulling, s.(pulling := true, live := s.live + 1))
  {
    hide Decide, Decisive;
    if listing.Listed? {
      FirstDecides(listing.bases, c.name, i);
    }
  }

  /** After a failed pull the next one starts no sooner than shellPullRetry later. */
  lemma {:induction false} PullsAreSpaced(c: Config, events: seq<Event>, listing: Listing, now: int)
    requires Legal(c, events) && StartsPull(c, After(c, events), listing, now)
    requires LastEnd(events).Some? && Pulled(c, LastEnd(events).value).None?
    ensures now - LastEnd(events).value.now >= RETRY
  {
    Invariant(c, events);
  }

  lemma {:induction false} BaseCaches(c: Config)
    ensures H.Caches(AsMachine(c), c.name)
  {
  }

  lemma {:induction false} SeenStays(c: Config, before: seq<Event>, e: Event, s: State)
    requires s.digest != "" ==> SeenReady(c, before, s.digest)
    ensures var digest := Next(c, s, e).digest; digest != "" ==> SeenReady(c, before + [e], digest)
  {
    BaseCaches(c);
    hide Next;
    assert H.CachesAt(AsMachine(c), c.name, s, e);
    H.SeenLater(AsMachine(c), c.name, before, e, s);
  }

  /** A Forget that comes late changes nothing then or in any future. */
  lemma {:induction false} StaleForgetIsHarmless(c: Config, before: seq<Event>, stale: string, later: seq<Event>)
    requires stale != After(c, before).digest
    ensures After(c, (before + [Forget(stale)]) + later) == After(c, before + later)
  {
    BaseCaches(c);
    hide Next;
    H.StaleForget(AsMachine(c), c.name, before, stale, later);
  }

  /** Whatever digest is cached after a Forget that comes in time was listed READY after it. */
  lemma {:induction false} ForgottenIsLookedUpAgain(c: Config, before: seq<Event>, later: seq<Event>)
    ensures var events := before + [Forget(After(c, before).digest)] + later;
            After(c, events).digest != "" ==> SeenReady(c, later, After(c, events).digest)
  {
    BaseCaches(c);
    hide Next;
    H.Forgotten(AsMachine(c), c.name, before, later);
  }
}
