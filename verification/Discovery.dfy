/** The applications as told by an event log, which is read in batches that may fail and be repeated. */
module Discovery {
  import opened Wrappers
  import opened Strings
  import opened Config
  import opened Permutations
  import opened Sorting

  datatype Event = AppUpdated(app: Application) | AppDeleted(id: string) | Unsupported

  type Apps = map<string, Application>

  function Apply(apps: Apps, e: Event): Apps {
    match e
    case AppUpdated(app) => apps[app.id := app]
    case AppDeleted(id) => apps - {id}
    case Unsupported => apps
  }

  /** The applications after `events`, one after the other. */
  function Fold(apps: Apps, events: seq<Event>): Apps {
    if events == [] then apps else Apply(Fold(apps, events[..|events| - 1]), events[|events| - 1])
  }

  predicate Supported(events: seq<Event>) {
    forall e :: e in events ==> !e.Unsupported?
  }

  const BY_ID: (Application, Application) -> bool := (a: Application, b: Application) => Less(a.id, b.id)

  /** Every application is filed under its own ID. */
  predicate WellKeyed(apps: Apps) {
    forall id :: id in apps ==> apps[id].id == id
  }

  /** The applications, all of them and nothing else, in strictly increasing order of ID. */
  ghost predicate IsListing(apps: Apps, list: seq<Application>) {
    && (forall app :: app in list <==> app.id in apps && apps[app.id] == app)
    && (forall i, j :: 0 <= i < j < |list| ==> Less(list[i].id, list[j].id))
  }

  class EhDiscovery {
    var apps: Apps
    var cursor: nat

    constructor ()
      ensures apps == map[] && cursor == 0 && WellKeyed(apps)
    {
      apps, cursor := map[], 0;
    }

    method ProcessEvent(e: Event) returns (ok: bool)
      modifies this`apps
      ensures apps == Apply(old(apps), e) && ok == !e.Unsupported?
      ensures WellKeyed(old(apps)) ==> WellKeyed(apps)
    {
      ok := true;
      match e
      case AppUpdated(app) => apps := apps[app.id := app];
      case AppDeleted(id) => apps := apps - {id};
      case Unsupported => ok := false;
    }

    /** One batch, the events of `log` from the cursor to `end`; at `interrupted` the reader gives up.
        Returns where it stopped. The cursor moves only if the whole batch was processed. */
    method ProcessEvents(log: seq<Event>, end: nat, interrupted: nat) returns (reached: nat, ok: bool)
      requires cursor <= end <= |log|
      modifies this
      ensures old(cursor) <= reached <= end && Supported(log[old(cursor)..reached])
      ensures apps == Fold(old(apps), log[old(cursor)..reached])
      ensures WellKeyed(old(apps)) ==> WellKeyed(apps)
      ensures ok ==> reached == end
      ensures cursor == if ok then end else old(cursor)
      ensures !ok ==> reached == interrupted || (reached < end && log[reached].Unsupported?)
    {
      reached := cursor;
      while reached < end
        invariant cursor <= reached <= end && cursor == old(cursor)
        invariant Supported(log[cursor..reached])
        invariant apps == Fold(old(apps), log[cursor..reached])
        invariant WellKeyed(old(apps)) ==> WellKeyed(apps)
      {
        if reached == interrupted {
          return reached, false;
        }
        var supported := ProcessEvent(log[reached]);
        if !supported {
          return reached, false;
        }
        assert log[cursor..reached + 1] == log[cursor..reached] + [log[reached]];
        reached := reached + 1;
      }
      cursor := end;
      ok := true;
    }

    /** The map is iterated in no particular order; the list comes out the same. */
    method ReadApplications() returns (list: seq<Application>)
      requires WellKeyed(apps)
      ensures IsListing(apps, list)
    {
      list := [];
      var keys := apps.Keys;
      while keys != {}
        invariant keys <= apps.Keys
        invariant forall app :: app in list <==> app.id in apps && app.id !in keys && apps[app.id] == app
        invariant forall i, j :: 0 <= i < j < |list| ==> list[i].id != list[j].id
        decreases |keys|
      {
        var id :| id in keys;
        keys := keys - {id};
        assert forall i :: 0 <= i < |list| ==> list[i] in list && list[i].id != id;
        list := list + [apps[id]];
      }
      ghost var unsorted := list;
      ByIdIsOrder();
      list := SortSlice(list, BY_ID);
      SortedIsListing(apps, unsorted, list);
    }
  }

  lemma ByIdIsOrder()
    ensures StrictWeakOrder(BY_ID)
  {
    forall a, b | BY_ID(a, b)
      ensures !BY_ID(b, a)
    {
      LessTrichotomy(a.id, b.id);
    }
    forall a, b, c
      ensures Chains(BY_ID, a, b, c)
    {
      LessTrichotomy(a.id, b.id);
      LessTrichotomy(b.id, c.id);
      LessTrichotomy(a.id, c.id);
      if Less(c.id, a.id) && Less(a.id, b.id) {
        LessTransitive(c.id, a.id, b.id);
      }
    }
  }

  lemma SortedIsListing(apps: Apps, unsorted: seq<Application>, list: seq<Application>)
    requires WellKeyed(apps) && IsSortOf(BY_ID, unsorted, list)
    requires forall app :: app in unsorted <==> app.id in apps && apps[app.id] == app
    requires forall i, j :: 0 <= i < j < |unsorted| ==> unsorted[i].id != unsorted[j].id
    ensures IsListing(apps, list)
  {
    SameElements(unsorted, list);
    SameElements(list, unsorted);
    forall i, j | 0 <= i < j < |list|
      ensures Less(list[i].id, list[j].id)
    {
      assert !BY_ID(list[j], list[i]);
      LessTrichotomy(list[i].id, list[j].id);
      if list[i].id == list[j].id {
        assert list[i] in list && list[j] in list && list[i] == apps[list[i].id] == list[j];
        TwiceInMultiset(list, i, j);
        OnceInMultiset(unsorted, list[i]);
      }
    }
  }

  lemma TwiceInMultiset<T>(s: seq<T>, i: nat, j: nat)
    requires i < j < |s| && s[i] == s[j]
    ensures multiset(s)[s[i]] >= 2
  {
    assert s == s[..j] + s[j..];
    assert s[i] in s[..j] && s[j] in s[j..];
  }

  lemma {:induction false} OnceInMultiset(s: seq<Application>, x: Application)
    requires forall i, j :: 0 <= i < j < |s| ==> s[i].id != s[j].id
    ensures multiset(s)[x] <= 1
  {
    if s != [] {
      var n := |s| - 1;
      OnceInMultiset(s[..n], x);
      assert s == s[..n] + [s[n]];
      assert forall k :: 0 <= k < n ==> s[k].id != s[n].id;
      assert s[n] !in s[..n];
    }
  }

  /** There is only one listing, so the order of the map's iteration cannot show. */
  lemma ListingUnique(apps: Apps, a: seq<Application>, b: seq<Application>)
    requires IsListing(apps, a) && IsListing(apps, b)
    ensures a == b
  {
    SameMembersSameList(a, b);
  }

  lemma {:induction false} SameMembersSameList(a: seq<Application>, b: seq<Application>)
    requires forall x :: x in a <==> x in b
    requires forall i, j :: 0 <= i < j < |a| ==> Less(a[i].id, a[j].id)
    requires forall i, j :: 0 <= i < j < |b| ==> Less(b[i].id, b[j].id)
    ensures a == b
  {
    assert b != [] ==> b[0] in b;
    if a != [] {
      assert a[0] in b;
      SameFirst(a, b);
      TailMembers(a);
      TailMembers(b);
      SameMembersSameList(a[1..], b[1..]);
      assert a == [a[0]] + a[1..] && b == [b[0]] + b[1..];
    }
  }

  lemma SameFirst(a: seq<Application>, b: seq<Application>)
    requires a != [] && b != [] && a[0] in b && b[0] in b && forall x :: x in a <==> x in b
    requires forall i, j :: 0 <= i < j < |a| ==> Less(a[i].id, a[j].id)
    requires forall i, j :: 0 <= i < j < |b| ==> Less(b[i].id, b[j].id)
    ensures a[0] == b[0]
  {
    var i :| 0 <= i < |a| && a[i] == b[0];
    var j :| 0 <= j < |b| && b[j] == a[0];
    LessTrichotomy(a[0].id, b[0].id);
  }

  lemma TailMembers(s: seq<Application>)
    requires s != [] && forall i, j :: 0 <= i < j < |s| ==> Less(s[i].id, s[j].id)
    ensures forall x :: x in s[1..] <==> x in s && x != s[0]
  {
    forall x | x in s[1..]
      ensures x != s[0]
    {
      var k :| 0 <= k < |s[1..]| && s[1..][k] == x;
      LessTrichotomy(s[0].id, s[k + 1].id);
    }
    assert s == [s[0]] + s[1..];
  }

  // --- batches ---

  predicate Touches(e: Event, id: string) {
    match e
    case AppUpdated(app) => app.id == id
    case AppDeleted(d) => d == id
    case Unsupported => false
  }

  function Lookup(apps: Apps, id: string): Option<Application> {
    if id in apps then Some(apps[id]) else None
  }

  /** However a log is cut into batches, the outcome is that of reading it in one go. */
  lemma {:induction false} FoldBatches(apps: Apps, a: seq<Event>, b: seq<Event>)
    ensures Fold(apps, a + b) == Fold(Fold(apps, a), b)
  {
    if b == [] {
      assert a + b == a;
    } else {
      var n := |b| - 1;
      FoldBatches(apps, a, b[..n]);
      assert (a + b)[..|a + b| - 1] == a + b[..n];
    }
  }

  /** The last event about an application decides; without one, all stays as it was. */
  lemma {:induction false} LastWriteWins(apps: Apps, apps': Apps, events: seq<Event>, id: string)
    requires (exists e :: e in events && Touches(e, id)) || Lookup(apps, id) == Lookup(apps', id)
    ensures Lookup(Fold(apps, events), id) == Lookup(Fold(apps', events), id)
    ensures !(exists e :: e in events && Touches(e, id)) ==> Lookup(Fold(apps, events), id) == Lookup(apps, id)
  {
    if events != [] {
      var rest, last := events[..|events| - 1], events[|events| - 1];
      assert last in events;
      if !Touches(last, id) {
        assert events == rest + [last];
        LastWriteWins(apps, apps', rest, id);
      }
    }
  }

  lemma SameLookups(a: Apps, b: Apps)
    requires forall id :: Lookup(a, id) == Lookup(b, id)
    ensures a == b
  {
    forall id
      ensures id in a <==> id in b
      ensures id in a ==> a[id] == b[id]
    {
      assert Lookup(a, id) == Lookup(b, id);
    }
  }

  /** A batch that fails half-way and is then read again leaves no trace of the first attempt. */
  lemma ReplayAfterFailure(apps: Apps, events: seq<Event>, reached: nat)
    requires reached <= |events|
    ensures Fold(Fold(apps, events[..reached]), events) == Fold(apps, events)
  {
    var half := Fold(apps, events[..reached]);
    forall id
      ensures Lookup(Fold(half, events), id) == Lookup(Fold(apps, events), id)
    {
      if !(exists e :: e in events && Touches(e, id)) {
        assert forall e :: e in events[..reached] ==> e in events;
        LastWriteWins(apps, apps, events[..reached], id);
      }
      LastWriteWins(half, apps, events, id);
    }
    SameLookups(Fold(half, events), Fold(apps, events));
  }

  // --- any number of attempts ---

  /** `high` is how far any attempt has come. */
  datatype RState = RState(apps: Apps, cursor: nat, high: nat)

  /** An attempt, as `ProcessEvents` makes them: it reads from the cursor to `reached`. */
  ghost predicate Attempt(log: seq<Event>, s: RState, s': RState, reached: nat) {
    && s.cursor <= reached <= |log| && Supported(log[s.cursor..reached])
    && s'.apps == Fold(s.apps, log[s.cursor..reached])
    && (s'.cursor == s.cursor || s'.cursor == reached)
    && s'.high == if reached > s.high then reached else s.high
  }

  ghost predicate SomeAttempt(log: seq<Event>, s: RState, s': RState) {
    exists reached: nat :: Attempt(log, s, s', reached)
  }

  ghost predicate AttemptAt(log: seq<Event>, r: seq<RState>, i: nat)
    requires i < |r| - 1
  {
    SomeAttempt(log, r[i], r[i + 1])
  }

  ghost predicate IsReading(log: seq<Event>, r: seq<RState>) {
    |r| > 0 && r[0] == RState(map[], 0, 0) && forall i :: 0 <= i < |r| - 1 ==> AttemptAt(log, r, i)
  }

  function StateAfter(log: seq<Event>, n: nat): Apps
    requires n <= |log|
  {
    Fold(map[], log[..n])
  }

  /** What is known of one application is what the log said at some point between cursor and high mark. */
  ghost predicate UpToDate(log: seq<Event>, s: RState, id: string)
    requires s.cursor <= s.high <= |log|
  {
    exists h :: s.cursor <= h <= s.high && Lookup(s.apps, id) == Lookup(StateAfter(log, h), id)
  }

  lemma StateBetween(log: seq<Event>, a: nat, b: nat, id: string)
    requires a <= b <= |log|
    ensures StateAfter(log, b) == Fold(StateAfter(log, a), log[a..b])
    ensures !(exists e :: e in log[a..b] && Touches(e, id)) ==> Lookup(StateAfter(log, b), id) == Lookup(StateAfter(log, a), id)
  {
    assert log[..b] == log[..a] + log[a..b];
    FoldBatches(map[], log[..a], log[a..b]);
    LastWriteWins(StateAfter(log, a), StateAfter(log, a), log[a..b], id);
  }

  lemma AttemptKeepsUpToDate(log: seq<Event>, s: RState, s': RState, reached: nat, id: string)
    requires s.cursor <= s.high <= |log| && UpToDate(log, s, id) && Attempt(log, s, s', reached)
    ensures s'.cursor <= s'.high <= |log| && UpToDate(log, s', id)
  {
    var batch := log[s.cursor..reached];
    var h :| s.cursor <= h <= s.high && Lookup(s.apps, id) == Lookup(StateAfter(log, h), id);
    if exists e :: e in batch && Touches(e, id) {
      StateBetween(log, s.cursor, reached, id);
      LastWriteWins(s.apps, StateAfter(log, s.cursor), batch, id);
      assert Lookup(s'.apps, id) == Lookup(StateAfter(log, reached), id);
    } else {
      LastWriteWins(s.apps, s.apps, batch, id);
      if h < reached {
        assert forall e :: e in log[h..reached] ==> e in batch;
        StateBetween(log, h, reached, id);
        assert Lookup(s'.apps, id) == Lookup(StateAfter(log, reached), id);
      } else {
        assert s'.cursor <= h <= s'.high;
      }
    }
  }

  /** Whatever fails and is repeated, nothing that is known is older than the cursor, and no event
      that the model of applications does not know is ever passed. */
  lemma {:induction false} NeverOlderThanCursor(log: seq<Event>, r: seq<RState>, i: nat, id: string)
    requires IsReading(log, r) && i < |r|
    ensures r[i].cursor <= r[i].high <= |log| && UpToDate(log, r[i], id)
    ensures Supported(log[..r[i].cursor])
  {
    if i == 0 {
      assert log[..0] == [];
      assert Lookup(r[0].apps, id) == Lookup(StateAfter(log, 0), id);
    } else {
      NeverOlderThanCursor(log, r, i - 1, id);
      assert AttemptAt(log, r, i - 1);
      var reached: nat :| Attempt(log, r[i - 1], r[i], reached);
      AttemptKeepsUpToDate(log, r[i - 1], r[i], reached, id);
      assert log[..reached] == log[..r[i - 1].cursor] + log[r[i - 1].cursor..reached];
    }
  }

  /** Once the cursor has caught up with the furthest attempt, the applications are those of the log. */
  lemma Converges(log: seq<Event>, r: seq<RState>, i: nat)
    requires IsReading(log, r) && i < |r| && r[i].cursor == r[i].high
    ensures r[i].cursor <= |log| && r[i].apps == StateAfter(log, r[i].cursor)
  {
    NeverOlderThanCursor(log, r, i, "");
    forall id
      ensures Lookup(r[i].apps, id) == Lookup(StateAfter(log, r[i].cursor), id)
    {
      NeverOlderThanCursor(log, r, i, id);
    }
    SameLookups(r[i].apps, StateAfter(log, r[i].cursor));
  }

  /** `app` was written at `k` and nothing was said about its ID after that. */
  predicate LastWritten(events: seq<Event>, k: nat, app: Application) {
    k < |events| && events[k] == AppUpdated(app) && forall l :: k < l < |events| ==> !Touches(events[l], app.id)
  }

  lemma {:induction false} FoldHas(events: seq<Event>, app: Application)
    ensures Lookup(Fold(map[], events), app.id) == Some(app) <==> exists k :: LastWritten(events, k, app)
  {
    if events != [] {
      var n := |events| - 1;
      FoldHas(events[..n], app);
      if Touches(events[n], app.id) {
        assert events[n] == AppUpdated(app) ==> LastWritten(events, n, app);
      } else {
        forall k | 0 <= k < n
          ensures LastWritten(events[..n], k, app) <==> LastWritten(events, k, app)
        {
          assert forall l :: k < l < |events| ==> l == n || events[l] == events[..n][l];
        }
      }
    }
  }

  /** The list handed out then has exactly the applications written last and not deleted since. */
  lemma ListedIffLastWritten(events: seq<Event>, list: seq<Application>, app: Application)
    requires IsListing(Fold(map[], events), list)
    ensures app in list <==> exists k :: LastWritten(events, k, app)
  {
    FoldHas(events, app);
  }
}
