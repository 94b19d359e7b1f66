/** One metered model call: reserve the worst case, ask the provider, then charge or give back.
    Every call to the cost store takes full effect or fails without any, as its surroundings
    decide. */
module MeteredGateways {
  import opened Options
  import opened ModelPricing

  datatype Candidate = Candidate(providerId: nat, model: nat)

  datatype Pricing = Pricing(id: nat, price: Price)

  datatype ScopeKind = Project | Task | Agent | AgentRun

  datatype Scope = Scope(kind: ScopeKind, id: nat)

  datatype Status = Active | Consumed | Released

  datatype Reservation = Reservation(scope: Scope, amount: nat, status: Status)

  type Reservations = map<nat, Reservation>

  datatype Basis = ReportedUsage | ReservedEnvelope

  datatype CostEvent = CostEvent(
    answeredBy: Candidate, usage: Usage, pricingId: nat, primary: Option<nat>, reservationIds: set<nat>,
    estimated: nat, actual: nat, basis: Basis)

  datatype Fault =
    | PricingNotFound | CurrencyMismatch | BudgetNotFound | AtomicReservationUnavailable | BoundOutOfRange
    | StoreFailed | DuplicateProviderUsage | ProviderFailed | InvalidResponse

  /** `sound` stands for the shape checks on everything but the token counts. */
  datatype Response = Response(answeredBy: Candidate, usage: Usage, sound: bool)

  /** A response; an answer that cannot be used; or no answer at all. */
  datatype ProviderOutcome = Responds(response: Response) | AnswersUnusably(partial: Option<Response>) | NeverAnswers

  predicate Answers(p: ProviderOutcome) { !p.NeverAnswers? }

  datatype StoreReply = Accepts | ReportsDuplicate | RaisesDuplicate | Breaks

  datatype Recording = Recorded | Duplicate

  datatype Context = Context(
    projectId: nat, bound: Bound, scopeKind: Option<ScopeKind>, scopeId: Option<nat>, scopes: Option<seq<Scope>>,
    useProjectBudget: bool)

  datatype Metering = Metering(pricingId: nat, reserved: Option<nat>, estimated: nat, actual: nat, recording: Recording)

  // ----- the effect of each store call

  function Consume(r: Reservations, ids: set<nat>): Reservations {
    map id | id in r :: if id in ids then r[id].(status := Consumed) else r[id]
  }

  function Release(r: Reservations, ids: set<nat>): Reservations {
    map id | id in r :: if id in ids && r[id].status.Active? then r[id].(status := Released) else r[id]
  }

  ghost predicate AllActive(r: Reservations, ids: set<nat>) { forall id :: id in ids ==> id in r && r[id].status.Active? }

  /** The reservations in `ids` are the only ones that differ from `before`. */
  ghost predicate OnlyAdds(before: Reservations, after: Reservations, ids: set<nat>) {
    before.Keys !! ids && after.Keys == before.Keys + ids && forall id :: id in before ==> after[id] == before[id]
  }

  /** How a call left its own reservations and the event log. A reservation is still active only
      because its own release failed or because the charge for a rejected answer was lost. */
  ghost predicate Settled(own: set<nat>, r: Reservations, before: seq<CostEvent>, events: seq<CostEvent>,
                          answered: bool, duplicate: bool, unreleased: set<nat>, lost: bool) {
    && own <= r.Keys
    && (if events == before then forall id :: id in own ==> !r[id].status.Consumed?
        else
          && |events| == |before| + 1 && events[..|before|] == before && events[|before|].reservationIds == own
          && forall id :: id in own ==> r[id].status.Consumed?)
    && (forall id :: id in own && r[id].status.Released? ==> !answered || duplicate)
    && (forall id :: id in own && r[id].status.Active? ==> id in unreleased || lost)
    && (answered && !duplicate && !lost ==> events != before)
  }

  /** What the charge amounts to: the price of what was reported by a priced candidate, or else
      the whole reserved amount. */
  ghost predicate ChargedFairly(e: CostEvent, prices: map<Candidate, Pricing>, bound: Bound, reserved: nat) {
    match e.basis
    case ReservedEnvelope => e.actual == reserved && e.estimated == reserved
    case ReportedUsage =>
      && e.answeredBy in prices && ValidBound(bound)
      && CalculateCost(e.usage, prices[e.answeredBy].price) == Some(e.actual)
      && CalculateMaximumCost(bound, prices[e.answeredBy].price) == Some(e.estimated)
      && e.pricingId == prices[e.answeredBy].id
  }

  /** The reserved amount is the dearest candidate's worst case. */
  ghost predicate IsEnvelope(prices: map<Candidate, Pricing>, bound: Bound, reserved: nat) {
    && ValidBound(bound)
    && (exists c :: c in prices && MaximumOf(bound, prices[c].price) == reserved)
    && forall c :: c in prices ==> MaximumOf(bound, prices[c].price) <= reserved
  }

  /** The reservation covers the charge whenever the answer stayed within the bound. */
  lemma EnvelopeCoversCharge(e: CostEvent, prices: map<Candidate, Pricing>, bound: Bound, reserved: nat)
    requires ChargedFairly(e, prices, bound, reserved) && IsEnvelope(prices, bound, reserved)
    requires e.basis.ReportedUsage? ==> Within(e.usage, bound)
    ensures e.actual <= reserved
  {
    if e.basis.ReportedUsage? {
      MaximumIsUpperBound(e.usage, bound, prices[e.answeredBy].price);
    }
  }

  function PricesOf(list: seq<Pricing>): (r: seq<Price>)
    ensures |r| == |list| && forall i :: 0 <= i < |list| ==> r[i] == list[i].price
  {
    seq(|list|, i requires 0 <= i < |list| => list[i].price)
  }

  ghost predicate Reserves(own: Reservations, k: Scope) { exists id :: id in own && own[id].scope == k }

  /** One active reservation of the amount for each scope in the list. */
  ghost predicate Inputs(added: Reservations, scopes: seq<Scope>, micros: nat) {
    && |added.Keys| == |scopes|
    && (forall id :: id in added ==> added[id].status.Active? && added[id].amount == micros && added[id].scope in scopes)
    && (forall k :: k in scopes ==> Reserves(added, k))
  }

  lemma InputsGrow(added: Reservations, scopes: seq<Scope>, micros: nat, id: nat, scope: Scope)
    requires Inputs(added, scopes, micros) && id !in added
    ensures Inputs(added[id := Reservation(scope, micros, Active)], scopes + [scope], micros)
  {
    hide Reserves;
    var grown := added[id := Reservation(scope, micros, Active)];
    CountGrows(added, id, Reservation(scope, micros, Active));
    forall i | i in grown
      ensures grown[i].status.Active? && grown[i].amount == micros && grown[i].scope in scopes + [scope]
    {
      assert i != id ==> grown[i] == added[i] && added[i].scope in scopes;
    }
    forall k | k in scopes + [scope]
      ensures Reserves(grown, k)
    {
      ReservesGrow(added, id, Reservation(scope, micros, Active), k);
    }
  }

  lemma CountGrows(added: Reservations, id: nat, made: Reservation)
    requires id !in added
    ensures |added[id := made].Keys| == |added.Keys| + 1
  {
    assert added[id := made].Keys == added.Keys + {id};
  }

  lemma ReservesGrow(added: Reservations, id: nat, made: Reservation, k: Scope)
    requires id !in added
    ensures Reserves(added, k) || made.scope == k ==> Reserves(added[id := made], k)
  {
    var grown := added[id := made];
    assert id in grown;
    if Reserves(added, k) {
      var i :| i in added && added[i].scope == k;
      assert i in grown && grown[i].scope == k;
    }
  }

  lemma AddedAreOwn(before: Reservations, added: Reservations)
    requires added.Keys !! before.Keys && AllActive(added, added.Keys)
    ensures Own(before, before + added) == added && OnlyAdds(before, before + added, added.Keys)
    ensures AllActive(before + added, added.Keys)
  {
  }

  lemma InputsAreActive(added: Reservations, scopes: seq<Scope>, micros: nat)
    requires Inputs(added, scopes, micros)
    ensures AllActive(added, added.Keys)
  {
  }

  /** The reservation the cost event names is the one of the primary scope. */
  ghost predicate Primary(added: Reservations, primary: Option<nat>, primaryScope: Option<Scope>) {
    primary.Some? ==> primary.value in added && Some(added[primary.value].scope) == primaryScope
  }

  /** The reservations made since `before`. */
  ghost function Own(before: Reservations, after: Reservations): Reservations { after - before.Keys }

  /** Only the status of the reservations in `own` may differ. */
  ghost predicate Untouched(before: Reservations, after: Reservations, own: set<nat>) {
    && after.Keys == before.Keys
    && forall id :: id in before ==>
                      if id in own then after[id] == before[id].(status := after[id].status) else after[id] == before[id]
  }

  lemma ConsumeSettles(r: Reservations, own: set<nat>, before: seq<CostEvent>, e: CostEvent, answered: bool, duplicate: bool,
                       unreleased: set<nat>, lost: bool)
    requires AllActive(r, own) && e.reservationIds == own
    ensures Settled(own, Consume(r, own), before, before + [e], answered, duplicate, unreleased, lost)
    ensures Untouched(r, Consume(r, own), own)
  {
    assert (before + [e])[..|before|] == before;
  }

  class MeteredGateway {
    const provider: Candidate
    const pricingOf: Candidate -> Result<Option<Pricing>, Fault>
    const currenciesOf: Scope -> Result<set<Currency>, Fault>
    const store: nat -> StoreReply
    const reservesTogether: bool
    const releasesTogether: bool
    var reservations: Reservations
    var events: seq<CostEvent>
    var calls: nat
    var nextId: nat
    /** Whether a store call of this run reported the usage as already known, the reservations
        named by a release that failed, and whether the charge for a rejected answer failed. */
    ghost var duplicate: bool
    ghost var unreleased: set<nat>
    ghost var lost: bool

    ghost predicate Valid()
      reads `reservations, `nextId
    {
      forall id :: id in reservations ==> id < nextId
    }

    /** Nothing has gone wrong in this run so far. */
    ghost predicate Blameless()
      reads `duplicate, `unreleased, `lost
    {
      !duplicate && unreleased == {} && !lost
    }

    /** Nothing is blamed on the store without a call of this run that it did not accept; what is
        lost was lost by the last of them. */
    ghost predicate BlamesStore(first: nat)
      reads `calls, `duplicate, `unreleased, `lost
    {
      && (duplicate || unreleased != {} || lost ==> exists k :: first <= k < calls && !store(k).Accepts?)
      && (lost ==> first < calls && (store(calls - 1).RaisesDuplicate? || store(calls - 1).Breaks?))
    }

    constructor (provider: Candidate, pricingOf: Candidate -> Result<Option<Pricing>, Fault>,
                 currenciesOf: Scope -> Result<set<Currency>, Fault>, store: nat -> StoreReply,
                 reservesTogether: bool, releasesTogether: bool)
      ensures Valid() && reservations == map[] && events == []
    {
      this.provider, this.pricingOf, this.currenciesOf, this.store := provider, pricingOf, currenciesOf, store;
      this.reservesTogether, this.releasesTogether := reservesTogether, releasesTogether;
      reservations, events, calls, nextId, duplicate, unreleased, lost := map[], [], 0, 0, false, {}, false;
    }

    // ----- the cost store

    method NextReply() returns (reply: StoreReply)
      modifies `calls
      ensures reply == store(old(calls)) && calls == old(calls) + 1
    {
      reply := store(calls);
      calls := calls + 1;
    }

    /** One atomic reservation of the same amount in every scope. */
    method Reserve(added: Reservations) returns (ok: bool)
      requires Valid() && added.Keys !! reservations.Keys && forall id :: id in added ==> id < nextId
      modifies `reservations, `calls
      ensures Valid() && calls == old(calls) + 1
      ensures ok <==> store(old(calls)).Accepts?
      ensures reservations == if ok then old(reservations) + added else old(reservations)
    {
      var reply := NextReply();
      ok := reply.Accepts?;
      if ok {
        reservations := reservations + added;
      }
    }

    method ReleaseCall(ids: set<nat>) returns (ok: bool)
      requires Valid()
      modifies `reservations, `calls, `unreleased
      ensures Valid() && calls == old(calls) + 1
      ensures ok <==> store(old(calls)).Accepts?
      ensures reservations == if ok then Release(old(reservations), ids) else old(reservations)
      ensures unreleased == if ok then old(unreleased) else old(unreleased) + ids
    {
      var reply := NextReply();
      ok := reply.Accepts?;
      if ok {
        reservations := Release(reservations, ids);
      } else {
        unreleased := unreleased + ids;
      }
    }

    /** Records the usage and its cost and finalizes every reservation named, all or nothing. */
    method RecordUsageAndCost(e: CostEvent) returns (r: Result<Recording, Fault>)
      requires Valid() && AllActive(reservations, e.reservationIds)
      modifies `reservations, `events, `calls, `duplicate
      ensures Valid() && calls == old(calls) + 1
      ensures r.Ok? && r.value.Recorded? ==>
                && events == old(events) + [e] && reservations == Consume(old(reservations), e.reservationIds)
      ensures r.Err? || r.value.Duplicate? ==> events == old(events) && reservations == old(reservations)
      ensures duplicate == (old(duplicate) || r == Ok(Duplicate) || r == Err(DuplicateProviderUsage))
      ensures match store(old(calls))
              case Accepts => r == Ok(Recorded)
              case ReportsDuplicate => r == Ok(Duplicate)
              case RaisesDuplicate => r == Err(DuplicateProviderUsage)
              case Breaks => r == Err(StoreFailed)
    {
      var reply := NextReply();
      match reply {
        case Accepts =>
          events := events + [e];
          reservations := Consume(reservations, e.reservationIds);
          return Ok(Recorded);
        case ReportsDuplicate =>
          duplicate := true;
          return Ok(Duplicate);
        case RaisesDuplicate =>
          duplicate := true;
          return Err(DuplicateProviderUsage);
        case Breaks =>
          return Err(StoreFailed);
      }
    }

    /** Gives the reservations back, together if the store can, otherwise each on its own. */
    method ReleaseReservations(ids: set<nat>) returns (ok: bool)
      requires Valid() && ids <= reservations.Keys
      modifies `reservations, `calls, `unreleased
      ensures Valid() && Untouched(old(reservations), reservations, ids)
      ensures forall id :: id in ids && reservations[id].status.Active? ==> id in unreleased
      ensures forall id :: id in ids && reservations[id].status.Consumed? ==> old(reservations)[id].status.Consumed?
      ensures old(unreleased) <= unreleased <= old(unreleased) + ids && (ok ==> unreleased == old(unreleased))
      ensures ok ==> forall id :: id in ids ==> !reservations[id].status.Active?
      ensures calls >= old(calls) && (!ok ==> exists k :: old(calls) <= k < calls && !store(k).Accepts?)
    {
      ok := true;
      if ids == {} {
        return;
      }
      if releasesTogether {
        ok := ReleaseCall(ids);
        return;
      }
      var rest := ids;
      while rest != {}
        invariant rest <= ids && Valid() && Untouched(old(reservations), reservations, ids)
        invariant forall id :: id in ids - rest && reservations[id].status.Active? ==> id in unreleased
        invariant forall id :: id in ids && reservations[id].status.Consumed? ==> old(reservations)[id].status.Consumed?
        invariant old(unreleased) <= unreleased <= old(unreleased) + ids && (ok ==> unreleased == old(unreleased))
        invariant ok ==> forall id :: id in ids - rest ==> !reservations[id].status.Active?
        invariant calls >= old(calls) && (!ok ==> exists k :: old(calls) <= k < calls && !store(k).Accepts?)
      {
        var id: nat :| id in rest;
        var released := ReleaseCall({id});
        ok := ok && released;
        rest := rest - {id};
      }
    }

    // ----- before the provider is asked

    /** Looks up every candidate once, in order. */
    method FindPrices(candidates: seq<Candidate>) returns (r: Result<(map<Candidate, Pricing>, seq<Pricing>), Fault>)
      ensures r.Ok? ==>
                && r.value.0.Keys == (set c | c in candidates) && r.value.1 != []
                && (forall c :: c in r.value.0 ==> pricingOf(c) == Ok(Some(r.value.0[c])) && r.value.0[c] in r.value.1)
                && (forall p :: p in r.value.1 ==> exists c :: c in r.value.0 && r.value.0[c] == p)
    {
      var prices: map<Candidate, Pricing> := map[];
      var list: seq<Pricing> := [];
      var i := 0;
      while i < |candidates|
        invariant 0 <= i <= |candidates|
        invariant prices.Keys == (set c | c in candidates[..i])
        invariant forall c :: c in prices ==> pricingOf(c) == Ok(Some(prices[c])) && prices[c] in list
        invariant forall p :: p in list ==> exists c :: c in prices && prices[c] == p
      {
        var c := candidates[i];
        assert candidates[..i + 1] == candidates[..i] + [c];
        if c !in prices {
          var found := pricingOf(c);
          if found.Err? {
            return Err(found.error);
          }
          if found.value.None? {
            return Err(PricingNotFound);
          }
          ghost var before := prices;
          prices := prices[c := found.value.value];
          list := list + [found.value.value];
          assert forall d :: d in before ==> d in prices && prices[d] == before[d];
          assert c in prices && prices[c] == found.value.value;
        }
        i := i + 1;
      }
      assert candidates[..|candidates|] == candidates;
      if list == [] {
        return Err(PricingNotFound);
      }
      return Ok((prices, list));
    }

    predicate HasBudget(k: Scope, currency: Currency) { currenciesOf(k).Ok? && currency in currenciesOf(k).value }

    /** The scopes whose budget must hold a reservation: the explicit one, every configured one,
        or by default the project's. */
    predicate Guards(context: Context, currency: Currency, k: Scope) {
      match context.scopes
      case Some(configured) =>
        || (k in configured && (HasBudget(k, currency) || k.kind.AgentRun?))
        || (configured == [] && context.useProjectBudget && k == Scope(Project, context.projectId) && HasBudget(k, currency))
      case None =>
        if context.scopeKind.Some? && context.scopeId.Some? then k == Scope(context.scopeKind.value, context.scopeId.value)
        else context.useProjectBudget && k == Scope(Project, context.projectId) && HasBudget(k, currency)
    }

    /** The scopes to reserve in, and the one the cost event names. */
    method ChooseScopes(context: Context, currency: Currency) returns (r: Result<(seq<Scope>, Option<Scope>), Fault>)
      ensures r.Ok? ==> forall k :: k in r.value.0 <==> Guards(context, currency, k)
    {
      if context.scopeKind.Some? != context.scopeId.Some? {
        return Err(BudgetNotFound);
      }
      var primary: Option<Scope> :=
        if context.scopeKind.Some? then Some(Scope(context.scopeKind.value, context.scopeId.value)) else None;
      var scopes := if context.scopes.Some? then context.scopes.value else if primary.Some? then [primary.value] else [];
      if scopes == [] && context.useProjectBudget {
        var project := Scope(Project, context.projectId);
        var found := currenciesOf(project);
        if found.Err? {
          return Err(found.error);
        }
        if found.value != {} && currency !in found.value {
          return Err(CurrencyMismatch);
        }
        if currency in found.value {
          scopes, primary := [project], Some(project);
        }
      }
      if context.scopes.None? {
        return Ok((scopes, primary));
      }
      var kept: seq<Scope> := [];
      var i := 0;
      while i < |scopes|
        invariant 0 <= i <= |scopes|
        invariant forall k :: k in kept <==> k in scopes[..i] && (HasBudget(k, currency) || k.kind.AgentRun?)
      {
        assert scopes[..i + 1] == scopes[..i] + [scopes[i]];
        var found := currenciesOf(scopes[i]);
        if found.Err? {
          return Err(found.error);
        }
        if found.value != {} && currency !in found.value {
          return Err(CurrencyMismatch);
        }
        if currency in found.value || scopes[i].kind.AgentRun? {
          kept := kept + [scopes[i]];
        }
        i := i + 1;
      }
      assert scopes[..|scopes|] == scopes;
      return Ok((kept, primary));
    }

    method BuildReservations(scopes: seq<Scope>, primaryScope: Option<Scope>, micros: nat)
      returns (added: Reservations, primary: Option<nat>)
      requires Valid()
      modifies `nextId
      ensures Valid() && Inputs(added, scopes, micros) && Primary(added, primary, primaryScope)
      ensures forall id :: id in added ==> old(nextId) <= id < nextId
    {
      added, primary := map[], None;
      var i := 0;
      while i < |scopes|
        invariant 0 <= i <= |scopes| && old(nextId) <= nextId
        invariant Inputs(added, scopes[..i], micros) && Primary(added, primary, primaryScope)
        invariant forall id :: id in added ==> old(nextId) <= id < nextId
      {
        assert scopes[..i + 1] == scopes[..i] + [scopes[i]];
        InputsGrow(added, scopes[..i], micros, nextId, scopes[i]);
        added := added[nextId := Reservation(scopes[i], micros, Active)];
        if primary.None? && primaryScope == Some(scopes[i]) {
          primary := Some(nextId);
        }
        nextId := nextId + 1;
        i := i + 1;
      }
      assert scopes[..|scopes|] == scopes;
    }

    /** One reservation of the worst case in each scope, all of them or none. Without a store
        that reserves together, more than one is refused. */
    method PlaceReservations(scopes: seq<Scope>, primaryScope: Option<Scope>, micros: nat)
      returns (r: Result<(set<nat>, Option<nat>), Fault>)
      requires Valid()
      modifies `reservations, `calls, `nextId
      ensures Valid()
      ensures r.Ok? ==>
                && OnlyAdds(old(reservations), reservations, r.value.0) && AllActive(reservations, r.value.0)
                && Inputs(Own(old(reservations), reservations), scopes, micros)
                && (r.value.0 != {} ==> r.value.1.Some?)
                && Primary(Own(old(reservations), reservations), r.value.1, primaryScope)
      ensures r.Err? ==> reservations == old(reservations)
      ensures calls >= old(calls)
    {
      hide Inputs, Primary, Own, OnlyAdds, AllActive;
      var added, primary := BuildReservations(scopes, primaryScope, micros);
      if added != map[] && primary.None? {
        return Err(BudgetNotFound);
      }
      if |added| > 1 && !reservesTogether {
        return Err(AtomicReservationUnavailable);
      }
      InputsAreActive(added, scopes, micros);
      if added != map[] {
        var ok := Reserve(added);
        if !ok {
          return Err(StoreFailed);
        }
      }
      assert reservations == old(reservations) + added;
      AddedAreOwn(old(reservations), added);
      return Ok((added.Keys, primary));
    }

    // ----- after the provider has been asked

    /** Gives everything back; nothing was charged. */
    method GiveBack(own: set<nat>, answered: bool) returns (ok: bool)
      requires Valid() && own <= reservations.Keys && (answered ==> duplicate)
      requires forall id :: id in own ==> !reservations[id].status.Consumed?
      modifies `reservations, `calls, `unreleased
      ensures Valid() && Untouched(old(reservations), reservations, own)
      ensures Settled(own, reservations, events, events, answered, duplicate, unreleased, lost)
      ensures forall id :: id in own ==> !reservations[id].status.Consumed?
      ensures ok ==> unreleased == old(unreleased) && forall id :: id in own ==> !reservations[id].status.Active?
      ensures calls >= old(calls) && (!ok ==> exists k :: old(calls) <= k < calls && !store(k).Accepts?)
    {
      ok := ReleaseReservations(own);
    }

    /** The vendor answered but the answer cannot be priced: the reserved worst case is charged.
        What goes wrong here is not reported to the caller. */
    method ChargeRejectedResponse(partial: Option<Response>, requested: Candidate, pricingId: nat, reserved: nat,
                                  own: set<nat>, primary: Option<nat>)
      requires Valid() && AllActive(reservations, own) && Blameless()
      modifies `reservations, `events, `calls, `duplicate, `unreleased, `lost
      ensures Valid() && Untouched(old(reservations), reservations, own) && BlamesStore(old(calls))
      ensures Settled(own, reservations, old(events), events, true, duplicate, unreleased, lost)
      ensures events != old(events) ==>
                && events[|old(events)|].basis.ReservedEnvelope?
                && events[|old(events)|].actual == reserved && events[|old(events)|].estimated == reserved
    {
      var reported := if partial.Some? && partial.value.sound && ValidUsage(partial.value.usage) then partial.value.usage
                      else Usage(0, 0, 0, 0);
      var answeredBy := if partial.Some? then partial.value.answeredBy else requested;
      var e := CostEvent(answeredBy, reported, pricingId, primary, own, reserved, reserved, ReservedEnvelope);
      ConsumeSettles(reservations, own, events, e, true, false, {}, false);
      var recording := RecordUsageAndCost(e);
      if recording.Err? {
        lost := true;
        return;
      }
      if recording.value.Duplicate? {
        var ignored := GiveBack(own, true);
      }
    }

    /** A usable response: price it and record it. */
    method ChargeResponse(response: Response, context: Context, prices: map<Candidate, Pricing>, envelope: Pricing,
                          reserved: nat, own: set<nat>, primary: Option<nat>) returns (r: Result<Metering, Fault>)
      requires Valid() && AllActive(reservations, own) && ValidBound(context.bound) && Blameless()
      requires response.sound && ValidUsage(response.usage)
      modifies `reservations, `events, `calls, `duplicate, `unreleased, `lost
      ensures Valid() && Untouched(old(reservations), reservations, own) && BlamesStore(old(calls))
      ensures Settled(own, reservations, old(events), events, true, duplicate, unreleased, lost)
      ensures events != old(events) ==> ChargedFairly(events[|old(events)|], prices, context.bound, reserved)
      ensures r.Ok? ==> Reports(r.value, response, prices, context.bound, reserved, own, events != old(events))
      ensures response.answeredBy in prices && store(old(calls)).ReportsDuplicate?
              && (exists id :: id in own && reservations[id].status.Active?) ==>
                exists j, k :: old(calls) < j < k < calls && !store(j).Accepts? && !store(k).Accepts?
      ensures r.Ok? && events != old(events) ==>
                events[|old(events)|].basis.ReportedUsage? && events[|old(events)|].actual == r.value.actual
    {
      if response.answeredBy !in prices {
        ChargeRejectedResponse(Some(response), response.answeredBy, envelope.id, reserved, own, primary);
        return Err(PricingNotFound);
      }
      var pricing := prices[response.answeredBy];
      var actual := CalculateCost(response.usage, pricing.price).value;
      var estimated := MaximumOf(context.bound, pricing.price);
      var e := CostEvent(response.answeredBy, response.usage, pricing.id, primary, own, estimated, actual, ReportedUsage);
      ConsumeSettles(reservations, own, events, e, true, false, {}, false);
      var recording := RecordUsageAndCost(e);
      if recording.Err? {
        if recording.error == DuplicateProviderUsage {
          var ok := GiveBack(own, true);
        } else {
          ChargeRejectedResponse(Some(response), response.answeredBy, envelope.id, reserved, own, primary);
        }
        return Err(recording.error);
      }
      if recording.value.Duplicate? {
        var ok := GiveBack(own, true);
        if !ok {
          ok := GiveBack(own, true);
          return Err(StoreFailed);
        }
      }
      return Ok(Metering(pricing.id, if own == {} then None else Some(reserved), estimated, actual, recording.value));
    }

    /** What is done with the provider's outcome. */
    method Conclude(outcome: ProviderOutcome, context: Context, prices: map<Candidate, Pricing>, envelope: Pricing,
                    reserved: nat, own: set<nat>, primary: Option<nat>) returns (r: Result<Metering, Fault>)
      requires Valid() && AllActive(reservations, own) && ValidBound(context.bound) && Blameless()
      modifies `reservations, `events, `calls, `duplicate, `unreleased, `lost
      ensures Valid() && Untouched(old(reservations), reservations, own) && BlamesStore(old(calls))
      ensures Settled(own, reservations, old(events), events, Answers(outcome), duplicate, unreleased, lost)
      ensures events != old(events) ==> ChargedFairly(events[|old(events)|], prices, context.bound, reserved)
      ensures r.Ok? ==>
                && outcome.Responds?
                && Reports(r.value, outcome.response, prices, context.bound, reserved, own, events != old(events))
      ensures r.Ok? && events != old(events) ==>
                events[|old(events)|].basis.ReportedUsage? && events[|old(events)|].actual == r.value.actual
    {
      hide Reports, CalculateCost, CalculateMaximumCost;
      match outcome {
        case NeverAnswers =>
          var ok := GiveBack(own, false);
          return Err(if ok then ProviderFailed else StoreFailed);
        case AnswersUnusably(partial) =>
          ChargeRejectedResponse(partial, provider, envelope.id, reserved, own, primary);
          return Err(ProviderFailed);
        case Responds(response) =>
          if !response.sound || !ValidUsage(response.usage) {
            ChargeRejectedResponse(Some(response), provider, envelope.id, reserved, own, primary);
            return Err(InvalidResponse);
          }
          r := ChargeResponse(response, context, prices, envelope, reserved, own, primary);
      }
    }

    /** The whole call. `contacted` says whether the provider was asked, `reserved` what each
        reservation holds. */
    method CompleteMetered(candidates: seq<Candidate>, context: Context, outcome: ProviderOutcome)
      returns (r: Result<Metering, Fault>, contacted: bool, reserved: nat, prices: map<Candidate, Pricing>)
      requires Valid()
      modifies this
      ensures Valid() && BlamesStore(old(calls))
      ensures old(reservations).Keys <= reservations.Keys
      ensures forall id :: id in old(reservations) ==> reservations[id] == old(reservations)[id]
      ensures var own := Own(old(reservations), reservations);
              && Settled(own.Keys, reservations, old(events), events, contacted && Answers(outcome), duplicate, unreleased, lost)
              && forall id :: id in own ==> own[id].amount == reserved
      ensures contacted ==> prices.Keys == (set c | c in candidates) && IsEnvelope(prices, context.bound, reserved)
      ensures forall c :: c in prices ==> pricingOf(c) == Ok(Some(prices[c]))
      ensures contacted ==> forall c, k :: c in prices && Guards(context, prices[c].price.currency, k) ==>
                                             Reserves(Own(old(reservations), reservations), k)
      ensures !contacted ==> Own(old(reservations), reservations) == map[] && events == old(events) && r.Err?
      ensures events != old(events) ==> ChargedFairly(events[|old(events)|], prices, context.bound, reserved)
      ensures r.Ok? ==>
                && outcome.Responds?
                && Reports(r.value, outcome.response, prices, context.bound, reserved,
                           Own(old(reservations), reservations).Keys, events != old(events))
      ensures r.Ok? && events != old(events) ==>
                events[|old(events)|].basis.ReportedUsage? && events[|old(events)|].actual == r.value.actual
    {
      hide OnlyAdds, Reports, CalculateCost, CalculateMaximumCost, Settled, ChargedFairly, Inputs, Primary, IsEnvelope, Reserves, MeteredGateway.Guards, ValidBound, PricesOf;
      contacted, reserved, duplicate, unreleased, lost := false, 0, false, {}, false;
      prices := map[];
      NothingIsSettled(reservations, events, duplicate, unreleased, lost);
      assert Own(reservations, reservations) == map[] && Own(reservations, reservations).Keys == {};
      var found := FindPrices(candidates);
      if found.Err? {
        return Err(found.error), false, 0, map[];
      }
      prices := found.value.0;
      var list := found.value.1;
      var currency := list[0].price.currency;
      if exists i :: 0 <= i < |list| && list[i].price.currency != currency {
        return Err(CurrencyMismatch), false, 0, prices;
      }
      if !ValidBound(context.bound) {
        return Err(BoundOutOfRange), false, 0, prices;
      }
      var index: nat;
      index, reserved := FindEnvelope(PricesOf(list), context.bound);
      EnvelopeFound(prices, list, context.bound, index, reserved);
      var chosen := ChooseScopes(context, currency);
      if chosen.Err? {
        return Err(chosen.error), false, 0, prices;
      }
      var placed := PlaceReservations(chosen.value.0, chosen.value.1, reserved);
      if placed.Err? {
        NothingIsSettled(reservations, events, duplicate, unreleased, lost);
        return Err(placed.error), false, 0, prices;
      }
      contacted := true;
      label Asked:
      var own, primary := placed.value.0, placed.value.1;
      AmountsAre(old(reservations), reservations, chosen.value.0, reserved);
      assert forall c :: c in prices ==> prices[c].price.currency == currency;
      r := Conclude(outcome, context, prices, list[index], reserved, own, primary);
      OwnStays(old(reservations), old@Asked(reservations), reservations, own);
    }

    lemma EnvelopeFound(prices: map<Candidate, Pricing>, list: seq<Pricing>, bound: Bound, index: nat, micros: nat)
      requires ValidBound(bound) && index < |list| && CalculateMaximumCost(bound, list[index].price) == Some(micros)
      requires forall i :: 0 <= i < |list| ==> CalculateMaximumCost(bound, PricesOf(list)[i]).value <= micros
      requires forall c :: c in prices ==> prices[c] in list
      requires forall p :: p in list ==> exists c :: c in prices && prices[c] == p
      ensures IsEnvelope(prices, bound, micros)
    {
      hide CalculateMaximumCost;
      assert list[index] in list;
      var c :| c in prices && prices[c] == list[index];
      assert MaximumOf(bound, prices[c].price) == micros;
      forall d | d in prices
        ensures MaximumOf(bound, prices[d].price) <= micros
      {
        var i :| 0 <= i < |list| && list[i] == prices[d];
        assert PricesOf(list)[i] == prices[d].price;
      }
    }
  }

  lemma NothingIsSettled(r: Reservations, events: seq<CostEvent>, duplicate: bool, unreleased: set<nat>, lost: bool)
    ensures Settled({}, r, events, events, false, duplicate, unreleased, lost)
  {
  }

  lemma AmountsAre(before: Reservations, after: Reservations, scopes: seq<Scope>, micros: nat)
    requires Inputs(Own(before, after), scopes, micros)
    ensures forall id :: id in Own(before, after) ==> after[id].amount == micros
    ensures forall k :: k in scopes ==> Reserves(Own(before, after), k)
  {
  }

  lemma OwnStays(before: Reservations, placed: Reservations, after: Reservations, own: set<nat>)
    requires OnlyAdds(before, placed, own) && Untouched(placed, after, own)
    ensures Own(before, after).Keys == own && before.Keys <= after.Keys
    ensures forall id :: id in before ==> after[id] == before[id]
    ensures forall id :: id in own ==> after[id].amount == placed[id].amount
    ensures forall k :: Reserves(Own(before, placed), k) ==> Reserves(Own(before, after), k)
  {
    assert Own(before, after).Keys == own;
    forall k | Reserves(Own(before, placed), k)
      ensures Reserves(Own(before, after), k)
    {
      var id :| id in Own(before, placed) && Own(before, placed)[id].scope == k;
      assert Own(before, after)[id].scope == k;
    }
  }

  /** The metering returned to the caller is that of the response and of what was recorded. */
  ghost predicate Reports(m: Metering, response: Response, prices: map<Candidate, Pricing>, bound: Bound, reserved: nat,
                          own: set<nat>, recorded: bool) {
    && response.answeredBy in prices && ValidBound(bound) && m.pricingId == prices[response.answeredBy].id
    && Some(m.actual) == CalculateCost(response.usage, prices[response.answeredBy].price)
    && Some(m.estimated) == CalculateMaximumCost(bound, prices[response.answeredBy].price)
    && m.reserved == (if own == {} then None else Some(reserved))
    && m.recording == if recorded then Recorded else Duplicate
  }
}
