/**
 * `FilteredAppsViewModel`: the screen where the user picks the apps whose notifications are not
 * forwarded. It lists the installed user apps with their filter records, filtered apps first,
 * and stores or deletes a record when the user flips an app's switch.
 */
module FilteredApps {
  import opened Common
  import opened Strings
  import opened Database

  /** `ApplicationInfo.FLAG_SYSTEM` */
  const FLAG_SYSTEM: int := 1

  /** `flags and FLAG_SYSTEM != 0` on a 32-bit flag word (bit 0). */
  predicate IsSystemApp(flags: int) {
    flags % 2 == 1
  }

  /** What the package manager reports of an installed application. */
  datatype InstalledApp = InstalledApp(appLabel: string, packageName: string, flags: int)

  /** The value of an `AppItem` (its icon is not modelled). */
  datatype AppEntry = AppEntry(appName: string, packageName: string, filteredItem: Option<FilteredAppItem>)

  /** `associate { it.packageName to it }`: a later record for the same package wins. */
  function ByPackage(items: seq<FilteredAppItem>): (r: map<string, FilteredAppItem>)
    ensures forall p :: p in r <==> exists i :: 0 <= i < |items| && items[i].packageName == p
    ensures forall p :: p in r ==> r[p].packageName == p && r[p] in items
  {
    if items == [] then map[]
    else
      var last := items[|items| - 1];
      var init := ByPackage(items[..|items| - 1]);
      assert forall i :: 0 <= i < |items| - 1 ==> items[..|items| - 1][i] == items[i];
      init[last.packageName := last]
  }

  /** No record after position `i` is for the same package as `items[i]`. */
  ghost predicate LastForPackage(items: seq<FilteredAppItem>, i: int)
    requires 0 <= i < |items|
  {
    forall j :: i < j < |items| ==> items[j].packageName != items[i].packageName
  }

  /** `associate` keeps, for every package, its last record. */
  lemma {:induction false} ByPackageLastWins(items: seq<FilteredAppItem>)
    ensures forall i :: 0 <= i < |items| && LastForPackage(items, i) ==> ByPackage(items)[items[i].packageName] == items[i]
  {
    if items != [] {
      var init := items[..|items| - 1];
      var last := items[|items| - 1];
      ByPackageLastWins(init);
      forall i | 0 <= i < |items| && LastForPackage(items, i)
        ensures ByPackage(items)[items[i].packageName] == items[i]
      {
        if i < |items| - 1 {
          assert items[i] == init[i];
          assert last.packageName != items[i].packageName by {
            assert i < |items| - 1 < |items|;
          }
          assert LastForPackage(init, i) by {
            forall j | i < j < |init|
              ensures init[j].packageName != init[i].packageName
            {
              assert init[j] == items[j];
            }
          }
        }
      }
    }
  }

  /** The `filter` and `map` of `loadAllAppsInner`: non-system apps with their filter record, in order. */
  function UserApps(installed: seq<InstalledApp>, byPackage: map<string, FilteredAppItem>): seq<AppEntry> {
    if installed == [] then []
    else
      var a := installed[0];
      (if IsSystemApp(a.flags) then []
       else [AppEntry(a.appLabel, a.packageName, if a.packageName in byPackage then Some(byPackage[a.packageName]) else None)])
      + UserApps(installed[1..], byPackage)
  }

  /**
   * `a1` sorts strictly before `a2` under the comparator (`compare(a1, a2) < 0`): `a1` is
   * filtered and `a2` is not, or both are filtered and `a1`'s name comes first.
   */
  predicate Precedes(a1: AppEntry, a2: AppEntry) {
    a1.filteredItem.Some? && (a2.filteredItem.None? || Before(a1.appName, a2.appName))
  }

  /** The comparator of `sortedWith`, as written. */
  function Compare(a1: AppEntry, a2: AppEntry): int {
    if a1.filteredItem.None? then 1
    else if a2.filteredItem.None? then -1
    else if Before(a1.appName, a2.appName) then -1
    else if a1.appName == a2.appName then 0
    else 1
  }

  /**
   * The comparator claims each of two unfiltered apps is greater than the other, so it is not a
   * consistent order; where it is negative is exactly `Precedes`.
   */
  lemma ComparatorInconsistent(a1: AppEntry, a2: AppEntry)
    ensures a1.filteredItem.None? && a2.filteredItem.None? ==> Compare(a1, a2) == 1 && Compare(a2, a1) == 1
    ensures Compare(a1, a2) < 0 <==> Precedes(a1, a2)
  {
  }

  /**
   * The comparator as evidently intended: two unfiltered apps compare equal, so that a stable sort
   * keeps them in the package manager's order.
   */
  function CompareIntended(a1: AppEntry, a2: AppEntry): int {
    if a1.filteredItem.None? && a2.filteredItem.None? then 0 else Compare(a1, a2)
  }

  function Sign(x: int): int {
    if x < 0 then -1 else if x == 0 then 0 else 1
  }

  /**
   * The intended comparator meets the contract of `java.util.Comparator`: it is antisymmetric in
   * sign, transitive, and two elements it calls equal compare alike with every third one.
   */
  lemma IntendedComparatorConsistent(x: AppEntry, y: AppEntry, z: AppEntry)
    ensures Sign(CompareIntended(x, y)) == -Sign(CompareIntended(y, x))
    ensures CompareIntended(x, y) > 0 && CompareIntended(y, z) > 0 ==> CompareIntended(x, z) > 0
    ensures CompareIntended(x, y) == 0 ==> Sign(CompareIntended(x, z)) == Sign(CompareIntended(y, z))
  {
    BeforeTrichotomy(x.appName, y.appName);
    BeforeTrichotomy(x.appName, z.appName);
    BeforeTrichotomy(y.appName, z.appName);
    BeforeAsymmetric(x.appName, y.appName);
    BeforeAsymmetric(x.appName, z.appName);
    if Before(z.appName, y.appName) && Before(y.appName, x.appName) {
      BeforeTransitive(z.appName, y.appName, x.appName);
    }
  }

  /**
   * What `SortApps` returns is ordered by the intended comparator: no app is followed by one
   * that compares before it.
   */
  lemma SortAppsOrderedByIntended(xs: seq<AppEntry>)
    ensures forall i, j :: 0 <= i < j < |SortApps(xs)| ==> CompareIntended(SortApps(xs)[i], SortApps(xs)[j]) <= 0
  {
    var r := SortApps(xs);
    var n := |Filtered(xs)|;
    SortAppsShape(xs);
    UnfilteredAll(xs);
    forall i, j | 0 <= i < j < |r|
      ensures CompareIntended(r[i], r[j]) <= 0
    {
      if j < n {
        assert r[i] == r[..n][i] && r[j] == r[..n][j];
        assert r[i].filteredItem.Some? && r[j].filteredItem.Some?;
        assert NotAfter(AppName(r[..n][i]), AppName(r[..n][j]));
      } else {
        assert r[j] == r[n..][j - n];
        assert r[j].filteredItem.None?;
        if i >= n {
          assert r[i] == r[n..][i - n];
        } else {
          assert r[i] == r[..n][i];
        }
      }
    }
  }

  /** The filtered apps of `xs` named `name`, in the order `xs` lists them. */
  function SameName(xs: seq<AppEntry>, name: string): seq<AppEntry> {
    if xs == [] then []
    else (if xs[0].filteredItem.Some? && xs[0].appName == name then [xs[0]] else []) + SameName(xs[1..], name)
  }

  lemma {:induction false} SameNameAppend(xs: seq<AppEntry>, ys: seq<AppEntry>, name: string)
    ensures SameName(xs + ys, name) == SameName(xs, name) + SameName(ys, name)
  {
    if xs != [] {
      assert (xs + ys)[1..] == xs[1..] + ys;
      SameNameAppend(xs[1..], ys, name);
    } else {
      assert xs + ys == ys;
    }
  }

  lemma {:induction false} SameNameNone(xs: seq<AppEntry>, name: string)
    requires forall j :: 0 <= j < |xs| && xs[j].filteredItem.Some? ==> xs[j].appName != name
    ensures SameName(xs, name) == []
  {
    if xs != [] {
      SameNameNone(xs[1..], name);
    }
  }

  /** A list with its filtered apps first, in name order. */
  ghost predicate FilteredFirstByName(xs: seq<AppEntry>) {
    forall i, j :: 0 <= i < j < |xs| && xs[j].filteredItem.Some? ==>
      xs[i].filteredItem.Some? && NotAfter(xs[i].appName, xs[j].appName)
  }

  /** Inserting an app that is not a filtered one named `name` leaves those apps as they were. */
  lemma {:induction false} InsertAppOtherName(a: AppEntry, xs: seq<AppEntry>, name: string)
    requires !(a.filteredItem.Some? && a.appName == name)
    ensures SameName(InsertApp(a, xs), name) == SameName(xs, name)
  {
    if xs != [] && !Precedes(a, xs[0]) {
      InsertAppOtherName(a, xs[1..], name);
    }
  }

  /** A filtered app is inserted after every filtered app of the same name already there. */
  lemma {:induction false} InsertAppSameName(a: AppEntry, xs: seq<AppEntry>)
    requires a.filteredItem.Some? && FilteredFirstByName(xs)
    ensures SameName(InsertApp(a, xs), a.appName) == SameName(xs, a.appName) + [a]
  {
    var name := a.appName;
    if xs == [] {
    } else if Precedes(a, xs[0]) {
      forall j | 0 <= j < |xs| && xs[j].filteredItem.Some?
        ensures xs[j].appName != name
      {
        if xs[0].filteredItem.Some? {
          assert Before(name, xs[0].appName);
          if j > 0 && Before(xs[0].appName, xs[j].appName) {
            BeforeTransitive(name, xs[0].appName, xs[j].appName);
          }
          BeforeIrreflexive(name);
        }
      }
      SameNameNone(xs, name);
      assert InsertApp(a, xs) == [a] + xs;
      assert ([a] + xs)[1..] == xs;
    } else {
      InsertAppSameName(a, xs[1..]);
    }
  }

  /** What `SortApps` returns has its filtered apps first, in name order. */
  lemma SortAppsFilteredFirst(xs: seq<AppEntry>)
    ensures FilteredFirstByName(SortApps(xs))
  {
    var s := SortApps(xs);
    var n := |Filtered(xs)|;
    SortAppsShape(xs);
    UnfilteredAll(xs);
    forall i, j | 0 <= i < j < |s| && s[j].filteredItem.Some?
      ensures s[i].filteredItem.Some? && NotAfter(s[i].appName, s[j].appName)
    {
      assert s[i] == s[..n][i] && s[j] == s[..n][j];
      assert s[i] in s[..n];
    }
  }

  /**
   * Filtered apps sharing a name, which the intended comparator holds equal, keep the order the
   * package manager listed them in: the sort is stable on them.
   */
  lemma {:induction false} SortAppsStable(xs: seq<AppEntry>, name: string)
    ensures SameName(SortApps(xs), name) == SameName(xs, name)
  {
    if xs != [] {
      var init := xs[..|xs| - 1];
      var a := xs[|xs| - 1];
      var s := SortApps(init);
      SortAppsStable(init, name);
      assert xs == init + [a];
      SameNameAppend(init, [a], name);
      assert SameName([a], name) == (if a.filteredItem.Some? && a.appName == name then [a] else []) + SameName([], name);
      if a.filteredItem.Some? && a.appName == name {
        SortAppsFilteredFirst(init);
        InsertAppSameName(a, s);
      } else {
        InsertAppOtherName(a, s, name);
      }
    }
  }

  /** Inserts `a` after every element it does not precede (the position binary insertion picks). */
  function InsertApp(a: AppEntry, xs: seq<AppEntry>): seq<AppEntry> {
    if xs == [] || Precedes(a, xs[0]) then [a] + xs
    else [xs[0]] + InsertApp(a, xs[1..])
  }

  /** `sortedWith` on a short list: each element in turn inserted into the sorted prefix. */
  function SortApps(xs: seq<AppEntry>): seq<AppEntry> {
    if xs == [] then [] else InsertApp(xs[|xs| - 1], SortApps(xs[..|xs| - 1]))
  }

  /** The filtered entries, in order. */
  function Filtered(xs: seq<AppEntry>): seq<AppEntry> {
    if xs == [] then []
    else Filtered(xs[..|xs| - 1]) + (if xs[|xs| - 1].filteredItem.Some? then [xs[|xs| - 1]] else [])
  }

  /** The unfiltered entries, in order. */
  function Unfiltered(xs: seq<AppEntry>): seq<AppEntry> {
    if xs == [] then []
    else Unfiltered(xs[..|xs| - 1]) + (if xs[|xs| - 1].filteredItem.None? then [xs[|xs| - 1]] else [])
  }

  function AppName(a: AppEntry): string {
    a.appName
  }

  lemma {:induction false} UnfilteredAll(xs: seq<AppEntry>)
    ensures forall x :: x in Unfiltered(xs) ==> x.filteredItem.None?
  {
    if xs != [] {
      UnfilteredAll(xs[..|xs| - 1]);
    }
  }

  lemma {:induction false} FilteredAll(xs: seq<AppEntry>)
    ensures forall x :: x in Filtered(xs) ==> x.filteredItem.Some?
  {
    if xs != [] {
      FilteredAll(xs[..|xs| - 1]);
    }
  }

  /** An unfiltered app precedes nothing, so it goes last. */
  lemma {:induction false} InsertUnfiltered(a: AppEntry, xs: seq<AppEntry>)
    requires a.filteredItem.None?
    ensures InsertApp(a, xs) == xs + [a]
  {
    if xs != [] {
      InsertUnfiltered(a, xs[1..]);
      assert xs == [xs[0]] + xs[1..];
    }
  }

  /** A filtered app precedes every unfiltered one, so it lands among the filtered ones. */
  lemma {:induction false} InsertFiltered(a: AppEntry, fs: seq<AppEntry>, us: seq<AppEntry>)
    requires a.filteredItem.Some?
    requires forall u :: u in us ==> u.filteredItem.None?
    ensures InsertApp(a, fs + us) == InsertApp(a, fs) + us
  {
    if fs == [] {
      assert fs + us == us;
      if us != [] {
        assert us[0] in us;
        assert Precedes(a, us[0]);
      }
    } else {
      var xs := fs + us;
      assert xs[0] == fs[0];
      assert xs[1..] == fs[1..] + us;
      if !Precedes(a, fs[0]) {
        InsertFiltered(a, fs[1..], us);
      }
    }
  }

  /** Insertion adds `a` and loses nothing. */
  lemma {:induction false} InsertMultiset(a: AppEntry, xs: seq<AppEntry>)
    ensures multiset(InsertApp(a, xs)) == multiset(xs) + multiset{a}
  {
    if xs != [] && !Precedes(a, xs[0]) {
      InsertMultiset(a, xs[1..]);
      assert xs == [xs[0]] + xs[1..];
    }
  }

  /** A name-ordered sequence stays ordered without its head. */
  lemma SortedTail(xs: seq<AppEntry>)
    requires xs != [] && SortedBy(xs, AppName)
    ensures SortedBy(xs[1..], AppName)
  {
    var t := xs[1..];
    forall i, j | 0 <= i < j < |t|
      ensures NotAfter(AppName(t[i]), AppName(t[j]))
    {
      assert t[i] == xs[i + 1] && t[j] == xs[j + 1];
    }
  }

  /** An entry whose name comes no later than any in a name-ordered sequence may be put in front. */
  lemma SortedCons(x: AppEntry, xs: seq<AppEntry>)
    requires SortedBy(xs, AppName)
    requires forall j :: 0 <= j < |xs| ==> NotAfter(x.appName, xs[j].appName)
    ensures SortedBy([x] + xs, AppName)
  {
    var r := [x] + xs;
    forall i, j | 0 <= i < j < |r|
      ensures NotAfter(AppName(r[i]), AppName(r[j]))
    {
      assert r[j] == xs[j - 1];
      if i > 0 {
        assert r[i] == xs[i - 1];
      }
    }
  }

  /** Among filtered apps, insertion keeps them in name order and keeps every one. */
  lemma {:induction false} InsertFilteredSorted(a: AppEntry, fs: seq<AppEntry>)
    requires a.filteredItem.Some?
    requires forall f :: f in fs ==> f.filteredItem.Some?
    requires SortedBy(fs, AppName)
    ensures SortedBy(InsertApp(a, fs), AppName)
    ensures multiset(InsertApp(a, fs)) == multiset(fs) + multiset{a}
    ensures forall f :: f in InsertApp(a, fs) ==> f.filteredItem.Some?
  {
    var r := InsertApp(a, fs);
    InsertMultiset(a, fs);
    forall f | f in r
      ensures f.filteredItem.Some?
    {
      assert f in multiset(r);
    }
    if fs == [] {
    } else if Precedes(a, fs[0]) {
      forall j | 0 <= j < |fs|
        ensures NotAfter(a.appName, fs[j].appName)
      {
        if j > 0 {
          assert NotAfter(AppName(fs[0]), AppName(fs[j]));
          NotAfterTransitive(a.appName, fs[0].appName, fs[j].appName);
        }
      }
      SortedCons(a, fs);
    } else {
      var rest := fs[1..];
      var tail := InsertApp(a, rest);
      SortedTail(fs);
      assert forall f :: f in rest ==> f in fs;
      InsertFilteredSorted(a, rest);
      BeforeTrichotomy(a.appName, fs[0].appName);
      forall j | 0 <= j < |tail|
        ensures NotAfter(fs[0].appName, tail[j].appName)
      {
        assert tail[j] in multiset(tail);
        if tail[j] != a {
          assert tail[j] in multiset(rest);
          var k :| 0 <= k < |rest| && rest[k] == tail[j];
          assert fs[k + 1] == tail[j];
          assert NotAfter(AppName(fs[0]), AppName(fs[k + 1]));
        }
      }
      SortedCons(fs[0], tail);
    }
  }

  /**
   * The order `loadAllAppsInner` produces: the filtered apps first, in name order and each
   * exactly once, then the unfiltered apps in the order the package manager listed them.
   */
  lemma {:induction false} SortAppsShape(xs: seq<AppEntry>)
    ensures |SortApps(xs)| == |Filtered(xs)| + |Unfiltered(xs)|
    ensures SortApps(xs)[|Filtered(xs)|..] == Unfiltered(xs)
    ensures SortedBy(SortApps(xs)[..|Filtered(xs)|], AppName)
    ensures multiset(SortApps(xs)[..|Filtered(xs)|]) == multiset(Filtered(xs))
    ensures forall f :: f in SortApps(xs)[..|Filtered(xs)|] ==> f.filteredItem.Some?
  {
    if xs != [] {
      var init := xs[..|xs| - 1];
      var a := xs[|xs| - 1];
      SortAppsShape(init);
      var sorted := SortApps(init);
      var fs := sorted[..|Filtered(init)|];
      var us := Unfiltered(init);
      assert sorted == fs + us;
      UnfilteredAll(init);
      if a.filteredItem.None? {
        InsertUnfiltered(a, fs + us);
        assert SortApps(xs) == fs + (us + [a]);
      } else {
        InsertFiltered(a, fs, us);
        InsertFilteredSorted(a, fs);
        InsertLength(a, fs);
        assert SortApps(xs) == InsertApp(a, fs) + us;
      }
    }
  }

  lemma {:induction false} InsertLength(a: AppEntry, xs: seq<AppEntry>)
    ensures |InsertApp(a, xs)| == |xs| + 1
  {
    if xs != [] && !Precedes(a, xs[0]) {
      InsertLength(a, xs[1..]);
    }
  }

  /** `loadAllAppsInner`'s pipeline over the installed apps and the stored records. */
  function AppList(installed: seq<InstalledApp>, stored: seq<FilteredAppItem>): seq<AppEntry> {
    SortApps(UserApps(installed, ByPackage(stored)))
  }

  /**
   * Every entry of the pipeline stands for a non-system installed app and carries the stored
   * record for its package, or none when there is none.
   */
  lemma {:induction false} UserAppsSound(installed: seq<InstalledApp>, byPackage: map<string, FilteredAppItem>)
    ensures forall e :: e in UserApps(installed, byPackage) ==>
      && InstalledApp(e.appName, e.packageName, 0) in Unflagged(installed)
      && e.filteredItem == (if e.packageName in byPackage then Some(byPackage[e.packageName]) else None)
  {
    if installed != [] {
      UserAppsSound(installed[1..], byPackage);
    }
  }

  /** Every non-system installed app appears in the pipeline. */
  lemma {:induction false} UserAppsComplete(installed: seq<InstalledApp>, byPackage: map<string, FilteredAppItem>)
    ensures forall a :: a in installed && !IsSystemApp(a.flags) ==>
      exists e :: e in UserApps(installed, byPackage) && e.appName == a.appLabel && e.packageName == a.packageName
  {
    if installed != [] {
      UserAppsComplete(installed[1..], byPackage);
      var r := UserApps(installed, byPackage);
      forall a | a in installed && !IsSystemApp(a.flags)
        ensures exists e :: e in r && e.appName == a.appLabel && e.packageName == a.packageName
      {
        if a != installed[0] {
          assert a in installed[1..];
          var e :| e in UserApps(installed[1..], byPackage) && e.appName == a.appLabel && e.packageName == a.packageName;
          assert e in r;
        } else {
          assert r[0].appName == a.appLabel && r[0].packageName == a.packageName;
        }
      }
    }
  }

  /** The non-system installed apps, with their flags cleared. */
  function Unflagged(installed: seq<InstalledApp>): seq<InstalledApp> {
    if installed == [] then []
    else (if IsSystemApp(installed[0].flags) then [] else [installed[0].(flags := 0)]) + Unflagged(installed[1..])
  }

  /** `AppItem`: an app on the screen; its filter record changes as the user flips it. */
  class AppItem {
    const appName: string
    const packageName: string
    var filteredItem: Option<FilteredAppItem>

    constructor(entry: AppEntry)
      ensures Entry() == entry
    {
      appName := entry.appName;
      packageName := entry.packageName;
      filteredItem := entry.filteredItem;
    }

    function Entry(): AppEntry
      reads this
    {
      AppEntry(appName, packageName, filteredItem)
    }
  }

  /** `AppItemsState`; `Unset` is the value before the first load. */
  datatype AppItemsState = Unset | LoadingState | AllAppsState(allApps: seq<AppItem>)

  class FilteredAppsViewModel {
    const appsDao: FilteredAppsTable
    /** The value of `appItemsState`. */
    var appItemsState: AppItemsState

    constructor(appsDao: FilteredAppsTable)
      ensures this.appsDao == appsDao && appItemsState == Unset
    {
      this.appsDao := appsDao;
      appItemsState := Unset;
    }

    /**
     * `setAppFiltered`: turning filtering off for an app without a record does nothing. Turning
     * it on keeps the app's record (or makes one for its package), stores it and records the key
     * the table assigns; turning it off drops the record from the app and deletes it. `aborted`
     * reports an insert that the table refused, where Room's default `ABORT` strategy throws.
     */
    method SetAppFiltered(app: AppItem, filtered: bool) returns (aborted: bool)
      requires appsDao.Valid()
      modifies app, appsDao
      ensures appsDao.Valid()
      ensures aborted ==> filtered
      ensures old(app.filteredItem).None? && !filtered ==>
        app.filteredItem == old(app.filteredItem) && appsDao.rows == old(appsDao.rows)
      ensures !filtered ==>
        app.filteredItem.None?
        && (old(app.filteredItem).Some? ==> appsDao.rows == old(appsDao.rows) - {old(app.filteredItem).value.uid})
      ensures filtered ==>
        var item := if old(app.filteredItem).Some? then old(app.filteredItem).value else FilteredAppItem(0, app.packageName);
        && app.filteredItem.Some?
        && app.filteredItem.value.packageName == item.packageName
        && (old(appsDao.Conflicts(item)) <==> aborted)
        && (old(appsDao.Conflicts(item)) ==> app.filteredItem == Some(item) && appsDao.rows == old(appsDao.rows))
        && (old(appsDao.Conflicts(item)) ==> appsDao.lastUid == old(appsDao.lastUid))
        && (!old(appsDao.Conflicts(item)) ==>
              var key := app.filteredItem.value.uid;
              && app.filteredItem == Some(item.(uid := key))
              && key != 0 && key !in old(appsDao.rows)
              && (item.uid != 0 ==> key == item.uid)
              && (item.uid == 0 ==> key == old(appsDao.lastUid) + 1)
              && appsDao.rows == old(appsDao.rows)[key := app.filteredItem.value]
              && appsDao.lastUid == if key > old(appsDao.lastUid) then key else old(appsDao.lastUid))
      ensures !filtered ==> appsDao.lastUid == old(appsDao.lastUid)
    {
      aborted := false;
      if app.filteredItem.None? && !filtered {
        return;
      }
      var filteredItem := if app.filteredItem.Some? then app.filteredItem.value else FilteredAppItem(0, app.packageName);
      if filtered {
        app.filteredItem := Some(filteredItem);
      } else {
        app.filteredItem := None;
      }
      if filtered {
        var uid := appsDao.Insert(filteredItem);
        if uid.Some? {
          app.filteredItem := Some(filteredItem.(uid := uid.value));
        }
        aborted := uid.None?;
      } else {
        appsDao.Delete(filteredItem);
      }
    }

    /** `loadAllAppsInner`: the stored records are read, then the pipeline runs over `installed`. */
    method LoadAllAppsInner(installed: seq<InstalledApp>) returns (entries: seq<AppEntry>, ghost stored: seq<FilteredAppItem>)
      requires appsDao.Valid()
      ensures |stored| == |appsDao.rows|
      ensures forall item :: item in stored ==> item in appsDao.rows.Values
      ensures forall u :: u in appsDao.rows ==> appsDao.rows[u] in stored
      ensures entries == AppList(installed, stored)
    {
      var items, uids := appsDao.GetFilteredApps();
      stored := items;
      forall u | u in appsDao.rows
        ensures appsDao.rows[u] in items
      {
        assert u in multiset(uids);
        var i :| 0 <= i < |uids| && uids[i] == u;
      }
      entries := AppList(installed, items);
    }

    /** `loadAllApps`: shows loading, then the full list; returns the states posted, in order. */
    method LoadAllApps(installed: seq<InstalledApp>) returns (posted: seq<AppItemsState>)
      requires appsDao.Valid()
      modifies this
      ensures |posted| == 2 && posted[0] == LoadingState && posted[1] == appItemsState
      ensures appItemsState.AllAppsState?
      ensures exists stored: seq<FilteredAppItem> ::
        && (forall item :: item in stored ==> item in appsDao.rows.Values)
        && (forall u :: u in appsDao.rows ==> appsDao.rows[u] in stored)
        && |appItemsState.allApps| == |AppList(installed, stored)|
        && forall i :: 0 <= i < |appItemsState.allApps| ==>
             fresh(appItemsState.allApps[i]) && appItemsState.allApps[i].Entry() == AppList(installed, stored)[i]
    {
      appItemsState := LoadingState;
      var entries;
      ghost var stored;
      entries, stored := LoadAllAppsInner(installed);
      var apps: seq<AppItem> := [];
      for i := 0 to |entries|
        invariant |apps| == i
        invariant forall j :: 0 <= j < i ==> fresh(apps[j]) && apps[j].Entry() == entries[j]
      {
        var app := new AppItem(entries[i]);
        apps := apps + [app];
      }
      appItemsState := AllAppsState(apps);
      posted := [LoadingState, appItemsState];
    }
  }
}
