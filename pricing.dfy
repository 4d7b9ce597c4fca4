/** The service-record form (`ServiceRecordForm`, App.tsx): toggling services in
    the selection, the live subtotal / discount / total and the submit guard. */
module Pricing {
  import opened Model
  import Seqs

  /** `id => id !== serviceId` */
  function NotId(serviceId: string): string -> bool {
    id => id != serviceId
  }

  /** `s => s.id === id` */
  function ServiceWithId(id: string): Service -> bool {
    (s: Service) => s.id == id
  }

  /** `o => o.id === id` */
  function OfferWithId(id: string): Offer -> bool {
    (o: Offer) => o.id == id
  }

  /** A checkbox click: an id already selected is removed (every occurrence of it),
      any other id is appended at the end. */
  function ToggleService(selected: seq<string>, serviceId: string): (r: seq<string>)
    ensures serviceId in r <==> serviceId !in selected
    ensures forall id :: id != serviceId ==> (id in r <==> id in selected)
    ensures Seqs.NoDuplicates(selected) ==> Seqs.NoDuplicates(r)
    ensures serviceId !in selected ==>
              |r| == |selected| + 1 && r[..|selected|] == selected && r[|selected|] == serviceId
    ensures serviceId in selected ==>
              Seqs.IsSubsequence(r, selected) && multiset(r) == multiset(selected)[serviceId := 0]
  {
    if serviceId in selected then
      var r := Seqs.Filter(selected, NotId(serviceId));
      Seqs.FilterIsSubsequence(selected, NotId(serviceId));
      Seqs.FilterMultiplicity(selected, NotId(serviceId));
      assert multiset(r) == multiset(selected)[serviceId := 0];
      assert Seqs.NoDuplicates(selected) ==> Seqs.NoDuplicates(r) by {
        if Seqs.NoDuplicates(selected) {
          // a subsequence of a duplicate-free sequence has no duplicates
          Seqs.SubsequenceNoDuplicates(r, selected);
        }
      }
      r
    else
      assert (selected + [serviceId])[..|selected|] == selected;
      selected + [serviceId]
  }

  /** `services.find(s => s.id === id)?.price || 0`: an id missing from the catalog costs 0. */
  function PriceOf(services: seq<Service>, id: string): (price: real)
    ensures (forall k :: 0 <= k < |services| ==> services[k].id != id) ==> price == 0.0
    ensures price == 0.0 || exists k :: 0 <= k < |services| && services[k].id == id && services[k].price == price
  {
    match Seqs.Find(services, ServiceWithId(id))
    case Some(s) => s.price
    case None => 0.0
  }

  /** The first catalog entry with the id sets the price; an id not in the catalog costs 0. */
  lemma PriceOfFirstMatch(services: seq<Service>, id: string, i: int)
    ensures (forall k :: 0 <= k < |services| ==> services[k].id != id) ==> PriceOf(services, id) == 0.0
    ensures 0 <= i < |services| && services[i].id == id && (forall j :: 0 <= j < i ==> services[j].id != id)
            ==> PriceOf(services, id) == services[i].price
  {
    if 0 <= i < |services| && services[i].id == id && (forall j :: 0 <= j < i ==> services[j].id != id) {
      Seqs.FindFirst(services, ServiceWithId(id), i);
    }
  }

  /** The running total of the `reduce` over the selection, started from `acc`. */
  function SubtotalFrom(acc: real, selected: seq<string>, services: seq<Service>): real
    decreases |selected|
  {
    if selected == [] then acc
    else SubtotalFrom(acc + PriceOf(services, selected[0]), selected[1..], services)
  }

  /** `selectedServiceIds.reduce((total, id) => total + price(id), 0)` */
  function Subtotal(selected: seq<string>, services: seq<Service>): (r: real)
    ensures r == SumOfPrices(selected, services)
  {
    SubtotalFromIsSum(0.0, selected, services);
    SubtotalFrom(0.0, selected, services)
  }

  /** Reference definition: the plain sum of the selected services' catalog prices. */
  function SumOfPrices(selected: seq<string>, services: seq<Service>): real {
    if selected == [] then 0.0 else PriceOf(services, selected[0]) + SumOfPrices(selected[1..], services)
  }

  /** The left fold of the form equals the sum of prices. */
  lemma {:induction false} SubtotalFromIsSum(acc: real, selected: seq<string>, services: seq<Service>)
    ensures SubtotalFrom(acc, selected, services) == acc + SumOfPrices(selected, services)
    decreases |selected|
  {
    if selected != [] {
      SubtotalFromIsSum(acc + PriceOf(services, selected[0]), selected[1..], services);
    }
  }

  lemma {:induction false} SumOfPricesAppend(a: seq<string>, b: seq<string>, services: seq<Service>)
    ensures SumOfPrices(a + b, services) == SumOfPrices(a, services) + SumOfPrices(b, services)
  {
    if a == [] {
      assert a + b == b;
    } else {
      assert (a + b)[1..] == a[1..] + b;
      SumOfPricesAppend(a[1..], b, services);
    }
  }

  lemma {:induction false} SumOfPricesNonNegative(selected: seq<string>, services: seq<Service>)
    requires forall i :: 0 <= i < |services| ==> services[i].price >= 0.0
    ensures SumOfPrices(selected, services) >= 0.0
  {
    if selected != [] {
      SumOfPricesNonNegative(selected[1..], services);
    }
  }

  /** Removing an id that occurs once takes its price off the sum. */
  lemma {:induction false} SumWithoutId(selected: seq<string>, id: string, services: seq<Service>)
    requires id in selected && Seqs.NoDuplicates(selected)
    ensures SumOfPrices(selected, services)
         == SumOfPrices(Seqs.Filter(selected, NotId(id)), services) + PriceOf(services, id)
  {
    var rest := selected[1..];
    assert Seqs.NoDuplicates(rest);
    if selected[0] == id {
      assert id !in rest;
      Seqs.FilterKeepsAll(rest, NotId(id));
      assert Seqs.Filter(selected, NotId(id)) == rest;
    } else {
      SumWithoutId(rest, id, services);
      assert Seqs.Filter(selected, NotId(id)) == [selected[0]] + Seqs.Filter(rest, NotId(id));
    }
  }

  /** Ticking a service that is not selected adds its catalog price to the subtotal. */
  lemma ToggleOnAddsPrice(selected: seq<string>, id: string, services: seq<Service>)
    requires id !in selected
    ensures Subtotal(ToggleService(selected, id), services) == Subtotal(selected, services) + PriceOf(services, id)
  {
    SubtotalFromIsSum(0.0, selected, services);
    SubtotalFromIsSum(0.0, selected + [id], services);
    SumOfPricesAppend(selected, [id], services);
    assert SumOfPrices([id], services) == PriceOf(services, id);
  }

  /** Unticking a service that is selected once takes its catalog price off again. */
  lemma ToggleOffRemovesPrice(selected: seq<string>, id: string, services: seq<Service>)
    requires id in selected && Seqs.NoDuplicates(selected)
    ensures Subtotal(ToggleService(selected, id), services) == Subtotal(selected, services) - PriceOf(services, id)
  {
    var r := Seqs.Filter(selected, NotId(id));
    assert ToggleService(selected, id) == r;
    SubtotalFromIsSum(0.0, selected, services);
    SubtotalFromIsSum(0.0, r, services);
    SumWithoutId(selected, id, services);
  }

  /** Ticking and unticking an id that was not selected restores the selection. */
  lemma ToggleTwice(selected: seq<string>, id: string)
    requires id !in selected
    ensures ToggleService(ToggleService(selected, id), id) == selected
  {
    Seqs.FilterAppend(selected, [id], NotId(id));
    Seqs.FilterKeepsAll(selected, NotId(id));
  }

  /** The discount percentage of the chosen offer; 0 when no offer has that id. */
  function DiscountPercentageOf(offers: seq<Offer>, offerId: string): (pct: real)
    ensures (forall k :: 0 <= k < |offers| ==> offers[k].id != offerId) ==> pct == 0.0
    ensures pct == 0.0 || exists k :: 0 <= k < |offers| && offers[k].id == offerId && offers[k].discountPercentage == pct
  {
    match Seqs.Find(offers, OfferWithId(offerId))
    case Some(o) => o.discountPercentage
    case None => 0.0
  }

  /** The first offer with the chosen id sets the percentage; no such offer means 0. */
  lemma DiscountOfFirstMatch(offers: seq<Offer>, offerId: string, i: int)
    ensures (forall k :: 0 <= k < |offers| ==> offers[k].id != offerId) ==> DiscountPercentageOf(offers, offerId) == 0.0
    ensures 0 <= i < |offers| && offers[i].id == offerId && (forall j :: 0 <= j < i ==> offers[j].id != offerId)
            ==> DiscountPercentageOf(offers, offerId) == offers[i].discountPercentage
  {
    if 0 <= i < |offers| && offers[i].id == offerId && (forall j :: 0 <= j < i ==> offers[j].id != offerId) {
      Seqs.FindFirst(offers, OfferWithId(offerId), i);
    }
  }

  datatype Totals = Totals(subtotal: real, discountAmount: real, totalValue: real)

  /** The discount and the total for a subtotal and a percentage. */
  function ApplyDiscount(sub: real, pct: real): (t: Totals)
    ensures t.subtotal == sub
    ensures t.discountAmount + t.totalValue == sub
    ensures t.discountAmount == sub * pct / 100.0
  {
    var discount := (sub * pct) / 100.0;
    Totals(sub, discount, sub - discount)
  }

  /** The memoised `{ subtotal, discountAmount, totalValue }` of the form. */
  function ComputeTotals(selected: seq<string>, services: seq<Service>,
                         offers: seq<Offer>, selectedOfferId: string): (t: Totals)
    ensures t == ApplyDiscount(SumOfPrices(selected, services), DiscountPercentageOf(offers, selectedOfferId))
  {
    ApplyDiscount(Subtotal(selected, services), DiscountPercentageOf(offers, selectedOfferId))
  }

  /** Without a matching offer nothing is taken off. */
  lemma NoOfferNoDiscount(selected: seq<string>, services: seq<Service>, offers: seq<Offer>, selectedOfferId: string)
    requires forall i :: 0 <= i < |offers| ==> offers[i].id != selectedOfferId
    ensures ComputeTotals(selected, services, offers, selectedOfferId).discountAmount == 0.0
    ensures ComputeTotals(selected, services, offers, selectedOfferId).totalValue
         == ComputeTotals(selected, services, offers, selectedOfferId).subtotal
  {
    DiscountOfFirstMatch(offers, selectedOfferId, 0);
  }

  /** With non-negative prices and a percentage within [0, 100] the total is never
      negative and never exceeds the subtotal. */
  lemma TotalWithinSubtotal(selected: seq<string>, services: seq<Service>, offers: seq<Offer>, selectedOfferId: string)
    requires forall i :: 0 <= i < |services| ==> services[i].price >= 0.0
    requires 0.0 <= DiscountPercentageOf(offers, selectedOfferId) <= 100.0
    ensures var t := ComputeTotals(selected, services, offers, selectedOfferId);
            0.0 <= t.discountAmount && 0.0 <= t.totalValue <= t.subtotal
  {
    SumOfPricesNonNegative(selected, services);
    DiscountWithinSubtotal(SumOfPrices(selected, services), DiscountPercentageOf(offers, selectedOfferId));
  }

  lemma DiscountWithinSubtotal(sub: real, pct: real)
    requires sub >= 0.0 && 0.0 <= pct <= 100.0
    ensures var t := ApplyDiscount(sub, pct);
            0.0 <= t.discountAmount && 0.0 <= t.totalValue <= sub
  {
    MulNonNegative(sub, pct);
    MulNonNegative(sub, 100.0 - pct);
    assert sub * (100.0 - pct) == sub * 100.0 - sub * pct;
  }

  lemma MulNonNegative(a: real, b: real)
    requires a >= 0.0 && b >= 0.0
    ensures a * b >= 0.0
  {
  }

  /** What the form hands to `onSave`: a service record still without its id. */
  datatype RecordDraft = RecordDraft(
    clientId: string,
    serviceIds: seq<string>,
    offerId: Option<string>,
    subtotal: real,
    discountAmount: real,
    totalValue: real,
    date: int)

  /** `handleSubmit`: an empty selection is refused (the app alerts and saves nothing);
      otherwise the current totals are frozen into a draft dated `now`. An empty
      offer choice is stored as no offer. */
  function SubmitRecord(client: Client, selected: seq<string>, selectedOfferId: string,
                        services: seq<Service>, offers: seq<Offer>, now: int): (r: Option<RecordDraft>)
    ensures r.None? <==> selected == []
    ensures r.Some? ==>
      var t := ComputeTotals(selected, services, offers, selectedOfferId);
      && r.value.clientId == client.id
      && r.value.serviceIds == selected
      && r.value.offerId == (if selectedOfferId == "" then None else Some(selectedOfferId))
      && r.value.subtotal == t.subtotal
      && r.value.discountAmount == t.discountAmount
      && r.value.totalValue == t.totalValue
      && r.value.date == now
  {
    if |selected| == 0 then None
    else
      var t := ComputeTotals(selected, services, offers, selectedOfferId);
      Some(RecordDraft(client.id, selected, if selectedOfferId == "" then None else Some(selectedOfferId),
                       t.subtotal, t.discountAmount, t.totalValue, now))
  }

  /** The financial invariant of a stored record: its subtotal is the catalog sum of
      its services, and its discount and total are those `ApplyDiscount` gives for
      the percentage looked up from the offer id it keeps (0 when it keeps none). */
  ghost predicate Reconciles(d: RecordDraft, services: seq<Service>, offers: seq<Offer>) {
    var pct := match d.offerId case None => 0.0 case Some(id) => DiscountPercentageOf(offers, id);
    Totals(d.subtotal, d.discountAmount, d.totalValue) == ApplyDiscount(SumOfPrices(d.serviceIds, services), pct)
  }

  /** Every draft the form produces reconciles, as long as no offer has the empty id
      that stands for "no offer" in the select box. */
  lemma SubmittedDraftReconciles(client: Client, selected: seq<string>, selectedOfferId: string,
                                 services: seq<Service>, offers: seq<Offer>, now: int)
    requires forall i :: 0 <= i < |offers| ==> offers[i].id != ""
    ensures var r := SubmitRecord(client, selected, selectedOfferId, services, offers, now);
            r.Some? ==> Reconciles(r.value, services, offers)
  {
    var r := SubmitRecord(client, selected, selectedOfferId, services, offers, now);
    if r.Some? {
      if selectedOfferId == "" {
        DiscountOfFirstMatch(offers, selectedOfferId, 0);
      }
    }
  }

  /** Wash 30.00 and wax 20.00 with a 10% offer: subtotal 50, discount 5, total 45. */
  lemma WashAndWaxExample()
    ensures var services := [Service("wash", "Lavagem", 30.0), Service("wax", "Cera", 20.0)];
            var offers := [Offer("promo", "10% OFF", 10.0)];
            ComputeTotals(["wash", "wax"], services, offers, "promo") == Totals(50.0, 5.0, 45.0)
  {
    var services := [Service("wash", "Lavagem", 30.0), Service("wax", "Cera", 20.0)];
    var offers := [Offer("promo", "10% OFF", 10.0)];
    assert PriceOf(services, "wash") == 30.0;
    assert PriceOf(services, "wax") == 20.0;
    assert DiscountPercentageOf(offers, "promo") == 10.0;
  }
}
