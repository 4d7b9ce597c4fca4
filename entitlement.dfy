/** Who may use the app and when (App.tsx): expiry, the subscription wall, the
    trial banner, the operator's user list filter and the add-days control. */
module Entitlement {
  import opened Model
  import Seqs

  /** `new Date() > new Date(user.subscriptionEndDate)` */
  predicate IsExpired(user: User, now: int)
    ensures IsExpired(user, now) ==> DaysLeft(user, now) == 0
    ensures !IsExpired(user, now) && DaysLeft(user, now) == 0 ==> now == user.subscriptionEndDate
  {
    now > user.subscriptionEndDate
  }

  /** `showSubscriptionWall`: the wall appears when the subscription has expired or
      the user asked for it (the trial banner's upgrade button), never for an admin. */
  predicate ShowSubscriptionWall(user: User, now: int, wallRequested: bool)
    ensures ShowSubscriptionWall(user, now, wallRequested) ==> user.role == Tenant
    ensures user.role == Tenant && IsExpired(user, now) ==> ShowSubscriptionWall(user, now, wallRequested)
  {
    (IsExpired(user, now) || wallRequested) && user.role != Admin
  }

  /** The gating rule: an admin is never walled off; a tenant is walled off exactly
      when expired or on request; the plan itself plays no part. */
  lemma GatingRule(user: User, now: int, wallRequested: bool, plan: SubscriptionStatus)
    ensures user.role == Admin ==> !ShowSubscriptionWall(user, now, wallRequested)
    ensures user.role == Tenant ==>
              (ShowSubscriptionWall(user, now, wallRequested) <==> now > user.subscriptionEndDate || wallRequested)
    ensures ShowSubscriptionWall(user.(subscriptionStatus := plan), now, wallRequested)
         == ShowSubscriptionWall(user, now, wallRequested)
  {
  }

  /** `Math.ceil(diff / day)` for a whole number of milliseconds `diff`. */
  function CeilDays(diff: int): (d: int)
    ensures (d - 1) * DAY_MS < diff <= d * DAY_MS
  {
    -((-diff) / DAY_MS)
  }

  /** `TrialBanner.daysLeft`: whole days left before the subscription ends, rounded
      up, and 0 once it has ended. */
  function DaysLeft(user: User, now: int): (d: int)
    ensures d >= 0
    ensures d == 0 <==> user.subscriptionEndDate <= now
    ensures d > 0 ==> (d - 1) * DAY_MS < user.subscriptionEndDate - now <= d * DAY_MS
  {
    var days := CeilDays(user.subscriptionEndDate - now);
    if days > 0 then days else 0
  }

  /** The banner renders for a trial account with days left (the same trial test
      guards it in `MainApp`). */
  predicate ShowTrialBanner(user: User, now: int)
    ensures ShowTrialBanner(user, now) ==> user.subscriptionStatus == Trial && !IsExpired(user, now)
    ensures ShowTrialBanner(user, now) ==> !ShowSubscriptionWall(user, now, false)
  {
    user.subscriptionStatus == Trial && DaysLeft(user, now) != 0
  }

  /** The banner shows exactly for a trial that has not reached its end date, so
      never together with an expired subscription. */
  lemma TrialBannerIff(user: User, now: int)
    ensures ShowTrialBanner(user, now) <==> user.subscriptionStatus == Trial && now < user.subscriptionEndDate
    ensures ShowTrialBanner(user, now) ==> !IsExpired(user, now)
  {
  }

  /** The four buttons of `AdminUsersPage`. */
  datatype UserFilter = AllUsers | TrialUsers | ExpiredUsers | ActiveUsers

  predicate IsTenantAccount(u: User) {
    u.role == Tenant
  }

  /** The `switch (filter)` inside the user filter. */
  predicate MatchesFilter(u: User, filter: UserFilter, now: int)
    ensures filter == AllUsers ==> MatchesFilter(u, filter, now)
    ensures MatchesFilter(u, filter, now) && filter != AllUsers ==> (filter == ExpiredUsers <==> IsExpired(u, now))
    ensures filter == TrialUsers && MatchesFilter(u, filter, now) ==> u.subscriptionStatus == Trial
  {
    match filter
    case AllUsers => true
    case TrialUsers => u.subscriptionStatus == Trial && !IsExpired(u, now)
    case ExpiredUsers => IsExpired(u, now)
    case ActiveUsers => !IsExpired(u, now)
  }

  function FilterPredicate(filter: UserFilter, now: int): User -> bool {
    (u: User) => MatchesFilter(u, filter, now)
  }

  /** `filteredUsers`: the tenant accounts, then those the chosen button selects. */
  function FilteredUsers(users: seq<User>, filter: UserFilter, now: int): (r: seq<User>)
    ensures Seqs.IsSubsequence(r, users)
    ensures forall u :: u in r <==> u in users && u.role == Tenant && MatchesFilter(u, filter, now)
    ensures forall u :: multiset(r)[u] == if u.role == Tenant && MatchesFilter(u, filter, now) then multiset(users)[u] else 0
  {
    var allUsers := Seqs.Filter(users, IsTenantAccount);
    Seqs.FilterMembership(users, IsTenantAccount);
    Seqs.FilterIsSubsequence(users, IsTenantAccount);
    Seqs.FilterMultiplicity(users, IsTenantAccount);
    if filter == AllUsers then allUsers
    else
      var r := Seqs.Filter(allUsers, FilterPredicate(filter, now));
      Seqs.FilterMembership(allUsers, FilterPredicate(filter, now));
      Seqs.FilterIsSubsequence(allUsers, FilterPredicate(filter, now));
      Seqs.FilterMultiplicity(allUsers, FilterPredicate(filter, now));
      Seqs.SubsequenceTransitive(r, allUsers, users);
      r
  }

  /** Every listed tenant is either expired or active, never both; every trial
      tenant listed is active; admins are never listed. */
  lemma UserFiltersPartition(users: seq<User>, now: int, u: User)
    ensures u in FilteredUsers(users, AllUsers, now) <==> u in users && u.role == Tenant
    ensures u in FilteredUsers(users, AllUsers, now) <==>
              (u in FilteredUsers(users, ExpiredUsers, now) || u in FilteredUsers(users, ActiveUsers, now))
    ensures !(u in FilteredUsers(users, ExpiredUsers, now) && u in FilteredUsers(users, ActiveUsers, now))
    ensures u in FilteredUsers(users, TrialUsers, now) ==> u in FilteredUsers(users, ActiveUsers, now)
  {
  }

  /** The number typed into the control: `parseInt(value) || 0`, where `None` is a
      value that does not parse. */
  function DaysFromInput(parsed: Option<int>): (days: int)
    ensures parsed.None? ==> days == 0
    ensures parsed.Some? ==> days == parsed.value
  {
    match parsed
    case None => 0
    case Some(n) => n
  }

  datatype AddDaysCall = AddDaysCall(userId: string, days: int)

  /** `AddDaysControl.handleAdd`: only a positive number of days is passed on to the
      grant; anything else does nothing. */
  function HandleAddDays(userId: string, days: int): (call: Option<AddDaysCall>)
    ensures call.Some? <==> days > 0
    ensures call.Some? ==> call.value.userId == userId && call.value.days == days
  {
    if days > 0 then Some(AddDaysCall(userId, days)) else None
  }

  /** An entry that is empty, zero, negative or not a number never reaches the grant. */
  lemma NoGrantWithoutPositiveDays(userId: string, parsed: Option<int>)
    ensures HandleAddDays(userId, DaysFromInput(parsed)).Some? <==> parsed.Some? && parsed.value > 0
  {
  }
}
