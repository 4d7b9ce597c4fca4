# Lava Rápido Pro — a Dafny model of the business rules in `App.tsx`

Lava Rápido Pro is a single-page app for a car-wash business. A tenant keeps a client list, a
service catalog, discount offers and service records, and watches a revenue dashboard. An
operator (the `admin` role) manages the tenants' subscriptions and answers their support tickets.
All of its logic sits inside React components in `App.tsx`. This project restates that logic in
Dafny, with "now" and the calendar passed in as parameters, and proves what the app relies on.

Timestamps are whole milliseconds (`int`) and money is `real`, so the pricing identities hold
exactly. The modules follow the app's components:

- `Model` (`types.dfy`): the records of `types.ts` (users, clients, services, offers, service
  records, tickets and replies) and the one-day constant.
- `Seqs` (`seqs.dfy`): `filter`, `map` and `find` over sequences, and the order-preserving
  subsequence relation.
- `Sorting` (`sorting.dfy`): the newest-first `sort`, which is stable like `Array.prototype.sort`.
- `Pricing` (`pricing.dfy`): `ServiceRecordForm`. It covers the checkbox toggle, the subtotal
  fold, the offer discount, the total, and the submit guard.
- `Revenue` (`revenue.dfy`): the `Dashboard` loop over the records with its day, week and month
  accumulators. This is a `method` with loop invariants, proved equal to a reference sum.
- `Clients` (`clients.dfy`): the "no service for N days" filter of `ClientsPage`.
- `Entitlement` (`entitlement.dfy`): expiry, the subscription wall, the trial banner's days-left
  count, the operator's user filter, and the add-days control.
- `Tickets` (`tickets.dfy`): opening a ticket, the per-user view, the operator's status override
  and reply, and the blank-reply guard.
- `Text` (`text.dfy`): `String.prototype.trim` (ECMAScript white space and line terminators),
  and the digits-only phone normalisation used for WhatsApp links.

Three points where the code decides something a reader might expect otherwise. The model
follows the code in each:

- Unticking a service removes every occurrence of its id (`filter`), not just one.
- `handleUpdateTicketStatus` sets any status from any status. A reply forces `Respondido` even on
  a closed (`Finalizado`) ticket.
- The admin filter counts a user whose end date equals "now" as active (not expired). The trial
  banner hides at that moment, because its rounded-up days left is 0.

## Model

| member | source | states |
|---|---|---|
| Seqs.Filter | App.tsx:262 | no longer than the input; every kept element is from the input and satisfies the predicate; every input element satisfying it is kept |
| Seqs.FilterIsSubsequence | App.tsx:262 | the kept elements appear in their input order (a subsequence of the input) |
| Seqs.Find | App.tsx:268 | `None` exactly when no element matches; otherwise the first matching element |
| Seqs.MapSeq | App.tsx:1144 | same length, and every position holds the callback applied to the input at that position |
| Sorting.SortDesc | App.tsx:1174 | the result is a permutation of the input and is ordered by key, newest first |
| Sorting.SortDescStable | App.tsx:1174 | the sort is stable: for every key, the elements with that key appear in the result in their input order |
| Sorting.SortAppendNewest | App.tsx:1174 | appending an element newer than all others to a sorted list and re-sorting puts it first and keeps the rest in place |
| Sorting.HeadIsLargest | App.tsx:427-435 | the head of the sorted list comes from the input and no input key exceeds its key |
| Pricing.ToggleService | App.tsx:260-264 | ticking an unselected id appends it after the unchanged selection; unticking a selected id keeps the rest in order and drops every occurrence of that id, and only those; every other id keeps its membership; a duplicate-free selection stays duplicate-free |
| Pricing.ToggleTwice | App.tsx:260-264 | ticking then unticking an unselected id restores the selection exactly |
| Pricing.PriceOf | App.tsx:268-269 | an id missing from the catalog costs 0; a non-zero price is the price of a catalog entry with that id |
| Pricing.PriceOfFirstMatch | App.tsx:267-270 | an id missing from the catalog costs 0; otherwise the first catalog entry with that id sets the price |
| Pricing.Subtotal | App.tsx:267-270 | the `reduce` started at 0 equals the reference sum of the selected services' catalog prices |
| Pricing.SubtotalFromIsSum | App.tsx:267-270 | the left fold of the `reduce` equals its start value plus the reference sum of prices |
| Pricing.ToggleOnAddsPrice | App.tsx:260-270 | ticking an unselected service raises the subtotal by exactly its catalog price |
| Pricing.ToggleOffRemovesPrice | App.tsx:260-270 | unticking a service selected once lowers the subtotal by exactly its catalog price |
| Pricing.DiscountPercentageOf | App.tsx:272-273 | 0 when no offer has the chosen id; a non-zero percentage is that of an offer with that id |
| Pricing.DiscountOfFirstMatch | App.tsx:272-273 | the percentage is 0 when no offer has the chosen id; otherwise it comes from the first offer with that id |
| Pricing.ApplyDiscount | App.tsx:274-277 | the subtotal is kept; discount = subtotal × percentage / 100; discount + total = subtotal |
| Pricing.ComputeTotals | App.tsx:266-278 | the totals are those of `ApplyDiscount` for the reference sum of the selected catalog prices and the chosen offer's percentage |
| Pricing.NoOfferNoDiscount | App.tsx:272-275 | with no matching offer the discount is 0 and the total equals the subtotal |
| Pricing.TotalWithinSubtotal | App.tsx:266-278 | with non-negative prices and a percentage in [0, 100]: discount ≥ 0 and 0 ≤ total ≤ subtotal |
| Pricing.SubmitRecord | App.tsx:280-295 | no record exactly when the selection is empty; otherwise the draft carries the client, the selection, the current totals and `now`, and an empty offer choice is stored as no offer |
| Pricing.SubmittedDraftReconciles | App.tsx:266-295 | every saved draft's subtotal, discount and total agree with the catalog and the stored offer id |
| Pricing.WashAndWaxExample | App.tsx:266-278 | services of 30 and 20 with a 10% offer give subtotal 50, discount 5, total 45 |
| Revenue.WeekStart | App.tsx:342-345 | the week starts exactly `weekday` whole days before today (the Sunday at or before today), so less than seven days back, and is today exactly on a Sunday |
| Revenue.Periods | App.tsx:342-347 | the day and month starts are passed through; the week start is `WeekStart` of today and the weekday, so never after the day start |
| Revenue.RevenueSince | App.tsx:353-365 | reference sum of `totalValue` over the records dated at or after the start; never negative when no total is |
| Revenue.ComputeRevenue | App.tsx:353-365 | each of the three accumulators equals the sum of `totalValue` over the records dated at or after its period start |
| Revenue.RevenueSinceAppend | App.tsx:353-365 | the total over two batches of records is the sum of their totals |
| Revenue.RevenueMonotone | App.tsx:353-365 | with non-negative totals, an earlier period start never yields less revenue |
| Revenue.DailyRecordInWiderBuckets | App.tsx:342-365 | a record counted for today also counts for the week and the month |
| Revenue.DailyAtMostWeeklyAndMonthly | App.tsx:342-365 | with non-negative totals, daily ≤ weekly and daily ≤ monthly |
| Revenue.RevenueIgnoresOlder | App.tsx:356-358 | records all dated before the period start contribute 0 |
| Clients.ClientRecords | App.tsx:427-429 | the client's records, as a permutation of the filtered records, sorted newest first |
| Clients.FilteredClients | App.tsx:419-440 | `all` returns the list unchanged; a day threshold returns an order-preserving subsequence holding exactly the stale clients, each as often as in the input |
| Clients.LastServiceDate | App.tsx:427-435 | reference definition: none iff the client has no record; otherwise the date of one of its records, and no record of it is later |
| Clients.ClientRecordsEmptyIff | App.tsx:427-433 | the client's sorted record list is empty iff it has no last service date |
| Clients.NewestIsClientRecord | App.tsx:427-435 | the head of the sorted list is one of the client's records |
| Clients.NoRecordNewerThanNewest | App.tsx:427-435 | no record of the client is newer than the head of its sorted list |
| Clients.NewestRecordIsLastService | App.tsx:427-435 | the head of the sorted list carries the client's last service date |
| Clients.DaysSince | App.tsx:436 | the fractional day count is positive iff the date is before `now`, and 0 iff it is `now` |
| Clients.IsStale | App.tsx:426-439 | a client without records is stale; otherwise it is stale iff its newest record lies more than the threshold's whole days (in milliseconds) before `now` |
| Clients.DaysSinceExceeds | App.tsx:436-438 | the fractional-day comparison `> days` holds iff the age in milliseconds exceeds `days` whole days |
| Clients.StaleIff | App.tsx:426-439 | a client is listed iff it has never been serviced, or its last service lies strictly more than the threshold's days before `now` |
| Clients.NeverServicedIsListed | App.tsx:431-433 | a client without records is listed under every threshold |
| Entitlement.IsExpired | App.tsx:1126 | an expired subscription has no days left; not expired with no days left happens only at the end instant itself |
| Entitlement.ShowSubscriptionWall | App.tsx:1127 | only a tenant ever sees the wall, and an expired tenant always does |
| Entitlement.GatingRule | App.tsx:1126-1127 | an admin never sees the wall; a tenant sees it iff expired or requested; the plan plays no part |
| Entitlement.CeilDays | App.tsx:990 | the rounded-up day count d satisfies (d − 1) days < diff ≤ d days |
| Entitlement.DaysLeft | App.tsx:988-991 | never negative; 0 iff the end date is not after `now`; otherwise the rounded-up count of days left |
| Entitlement.ShowTrialBanner | App.tsx:993 | the banner shows only on a trial plan that has not expired, and never together with the expiry wall |
| Entitlement.TrialBannerIff | App.tsx:987-993 | the banner shows iff the plan is trial and `now` is before the end date, so never for an expired subscription |
| Entitlement.MatchesFilter | App.tsx:667-672 | `all` selects everyone; any other button selects expired users iff it is `expired`; `trial` selects only trial plans |
| Entitlement.FilteredUsers | App.tsx:659-674 | an order-preserving subsequence holding exactly the tenant accounts the chosen button selects, each as often as in the input |
| Entitlement.UserFiltersPartition | App.tsx:659-674 | admins are never listed; every listed tenant is expired or active and never both; a listed trial tenant is active |
| Entitlement.DaysFromInput | App.tsx:644 | an entry that does not parse counts as 0 days; a parsed number is kept as it is |
| Entitlement.HandleAddDays | App.tsx:633-637 | the grant is requested iff the number of days is positive, and then for that user and that number |
| Entitlement.NoGrantWithoutPositiveDays | App.tsx:633-644 | an empty, zero, negative or non-numeric entry never reaches the grant |
| Text.Trim | App.tsx:723 | the trimmed text is no longer than the input, and a non-empty one neither starts nor ends with white space |
| Text.TrimEmptyIff | App.tsx:723 | the trimmed text is empty iff every character is white space |
| Text.TrimIsInfix | App.tsx:723 | the trimmed text is the slice of the original between its leading and trailing white space |
| Text.DigitsOnly | App.tsx:944 | the result holds only ASCII digits and is a subsequence of the phone |
| Text.DigitsOnlyProperties | App.tsx:944 | normalising is idempotent, leaves an all-digit phone unchanged, and keeps every digit as often as it occurs |
| Tickets.NewTicket | App.tsx:1164-1173 | a new ticket is `Aberto`, has no replies, and belongs to the signed-in user |
| Tickets.AddTicket | App.tsx:1163-1175 | the new list is the old one plus exactly the new ticket (as a multiset), one longer, sorted newest first |
| Tickets.AddTicketAfterTies | App.tsx:1163-1175 | among the tickets created at the same instant as the new one, the old ones keep their order and the new one comes last |
| Tickets.AddTicketGoesFirst | App.tsx:1163-1175 | on a sorted list, a ticket newer than all others lands at the front and the rest keep their order |
| Tickets.UserTickets | App.tsx:1177 | a user's view holds exactly the tickets with that user's id, in list order and each as often as in the list |
| Tickets.AddTicketVisibility | App.tsx:1163-1177 | opening a ticket adds it to its owner's view only; every other view keeps the same tickets |
| Tickets.UpdateTicketStatus | App.tsx:1143-1145 | the tickets with the id get the new status and nothing else changes; every other ticket is unchanged |
| Tickets.StatusLastWriteWins | App.tsx:1143-1145 | setting a status twice leaves the second one, as if only it had been set |
| Tickets.UserTicketsAfterStatusUpdate | App.tsx:1143-1145 | a status change moves no ticket between users' views |
| Tickets.ReplyToTicket | App.tsx:1146-1158 | the answered ticket becomes `Respondido` and gains exactly one admin reply at the end, with its other fields unchanged; other tickets are unchanged |
| Tickets.UserTicketsAfterReply | App.tsx:1146-1158 | a reply moves no ticket between users' views |
| Tickets.SubmitAdminReply | App.tsx:722-728 | a text of nothing but white space changes no ticket; a text with any other character is sent, untrimmed |
| Tickets.TicketLifecycle | App.tsx:1143-1175 | opened `Aberto` with no replies, then answered (`Respondido`, one reply), then closed (`Finalizado`, the reply kept) |

## Left out

- Rendering: JSX, the landing page, forms, modals and navigation. These are presentation only.
- CSV export through a DOM anchor, and `window.open` for WhatsApp links. These are browser side effects; only the digit filter is modelled.
- The `useData`, `useAuth` and `useLocalStorage` hooks. Their files are not part of this model, so registration, login, `addSubscriptionDays`, `updateUserSubscription` and `getClientRecords` are not modelled. Only their call-site guards are.
- A tenant's reply to a ticket: `App.tsx` has no handler for it.
- IEEE doubles: `parseFloat`, `toLocaleString` formatting, NaN prices, and the float plan prices behind the operator dashboard's revenue card. Money is `real`.
- `parseInt` on the add-days entry (App.tsx:644). `Entitlement.DaysFromInput` takes the parse result as an `Option<int>`. How a string such as "2.9" (read as 2) or "12abc" (read as 12) is parsed is not modelled.
- JS `Date`. Timestamps are integer milliseconds, and the start of today, the weekday and the start of the month are parameters. An ISO string that does not parse (an invalid date) is not modelled.
- `Revenue.WeekStart`: subtracts whole days in milliseconds, so it ignores a daylight-saving change within the week, which `setDate` on a local date absorbs.
- The clock inside memoised values. `Dashboard`, `ClientsPage` and `TrialBanner` read `new Date()` inside `useMemo` (App.tsx:341, 424, 989), so their "now" is the instant of the last recomputation, not the instant of rendering; `TrialBanner` recomputes only when the end date changes. The model takes `now` as a parameter, which covers any such instant.
- Id generation from the clock. Ticket and record ids are parameters.
- `Pricing.SubmittedDraftReconciles`: assumes no offer has the empty id. The empty string stands for "no offer" in the select box, so such an offer's discount would be applied but not stored with the record.
- `tailwind.config.js`: styling only.
