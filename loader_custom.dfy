/**
 * LoaderCustom: a custom loader that lists the installed applications sorted by label. It keeps
 * the last result, hands it out again whenever it is started, reloads when the packages or an
 * interesting part of the configuration change, and lets an adapter show the list.
 */
module LoaderCustom {
  import opened Common

  // ---------------------------------------------------------------------------------------------
  // Application entries

  /** What the package manager reports about one application; `appLabel` is what `loadLabel` yields. */
  datatype ApplicationInfo = ApplicationInfo(packageName: string, sourceDir: string, appLabel: Option<string>)

  /** The two icons `getIcon` hands out: the application's own or the platform's default one. */
  datatype Drawable = SymDefAppIcon | ApkIcon(packageName: string)

  /** The label an entry ends up with once loaded, when its APK is (or is not) on disk. */
  function LabelFor(info: ApplicationInfo, apkExists: bool): string {
    if apkExists then info.appLabel.GetOr(info.packageName) else info.packageName
  }

  /** `loadLabel` on the pair (`mLabel`, `mMounted`). */
  function LoadedLabel(current: Option<string>, mounted: bool, info: ApplicationInfo, apkExists: bool)
    : (r: (Option<string>, bool))
    ensures current.Some? && mounted ==> r == (current, mounted)
    ensures (current.None? || !mounted) ==> r == (Some(LabelFor(info, apkExists)), apkExists)
    ensures r.0.Some?
  {
    if current.None? || !mounted then
      if !apkExists then (Some(info.packageName), false)
      else (Some(if info.appLabel.Some? then info.appLabel.value else info.packageName), true)
    else (current, mounted)
  }

  /** Loading twice while the APK stays where it is gives what loading once gave. */
  lemma LoadLabelIdempotent(current: Option<string>, mounted: bool, info: ApplicationInfo, apkExists: bool)
    ensures var once := LoadedLabel(current, mounted, info, apkExists);
            LoadedLabel(once.0, once.1, info, apkExists) == once
  {
  }

  /** What `getIcon` leaves in (`mIcon`, `mMounted`) and what it returns. */
  datatype IconLookup = IconLookup(icon: Option<Drawable>, mounted: bool, returned: Drawable)

  function IconFor(icon: Option<Drawable>, mounted: bool, info: ApplicationInfo, apkExists: bool): (r: IconLookup)
    ensures icon != Some(SymDefAppIcon) ==> (r.returned == SymDefAppIcon <==> !apkExists && !(icon.Some? && mounted))
    ensures r.returned != SymDefAppIcon ==> r.icon == Some(r.returned)
    ensures icon.Some? && mounted ==> r == IconLookup(icon, mounted, icon.value)
    ensures icon.None? && apkExists ==> r.icon == Some(ApkIcon(info.packageName)) && r.mounted == mounted
    ensures icon.None? && !apkExists ==> r.icon == None && !r.mounted
    ensures icon.Some? && !mounted ==> r.mounted == apkExists
  {
    if icon.None? then
      if apkExists then IconLookup(Some(ApkIcon(info.packageName)), mounted, ApkIcon(info.packageName))
      else IconLookup(None, false, SymDefAppIcon)
    else if !mounted then
      if apkExists then IconLookup(Some(ApkIcon(info.packageName)), true, ApkIcon(info.packageName))
      else IconLookup(icon, mounted, SymDefAppIcon)
    else IconLookup(icon, mounted, icon.value)
  }

  /** Once `getIcon` has found the APK, asking again while it stays there returns the same icon. */
  lemma IconIsCached(icon: Option<Drawable>, mounted: bool, info: ApplicationInfo)
    requires icon != Some(SymDefAppIcon)
    ensures var r := IconFor(icon, mounted, info, true);
            r.returned != SymDefAppIcon
            && IconFor(r.icon, r.mounted, info, true).returned == r.returned
  {
  }

  class AppEntry {
    const info: ApplicationInfo
    /** `mLabel`; `None` until it is loaded. */
    var labelText: Option<string>
    /** `mIcon`. */
    var icon: Option<Drawable>
    /** `mMounted`: whether the APK was found the last time we looked. */
    var mounted: bool

    constructor (info: ApplicationInfo)
      ensures this.info == info && labelText == None && icon == None && !mounted
    {
      this.info := info;
      labelText := None;
      icon := None;
      mounted := false;
    }

    /** `loadLabel`; `apks` are the paths `File.exists` finds. */
    method LoadLabel(apks: set<string>)
      modifies this
      ensures (labelText, mounted) == LoadedLabel(old(labelText), old(mounted), info, info.sourceDir in apks)
      ensures icon == old(icon)
    {
      if labelText.None? || !mounted {
        if info.sourceDir !in apks {
          mounted := false;
          labelText := Some(info.packageName);
        } else {
          mounted := true;
          labelText := Some(if info.appLabel.Some? then info.appLabel.value else info.packageName);
        }
      }
    }

    /** `getIcon`; the application's icon is reloaded when its APK has come back. */
    method GetIcon(apks: set<string>) returns (d: Drawable)
      modifies this
      ensures IconLookup(icon, mounted, d) == IconFor(old(icon), old(mounted), info, info.sourceDir in apks)
      ensures labelText == old(labelText)
    {
      if icon.None? {
        if info.sourceDir in apks {
          icon := Some(ApkIcon(info.packageName));
          return icon.value;
        } else {
          mounted := false;
        }
      } else if !mounted {
        if info.sourceDir in apks {
          mounted := true;
          icon := Some(ApkIcon(info.packageName));
          return icon.value;
        }
      } else {
        return icon.value;
      }
      return SymDefAppIcon;
    }
  }

  // ---------------------------------------------------------------------------------------------
  // ALPHA_COMPARATOR

  /** Label order: code unit by code unit, a proper prefix first. */
  function Compare(a: string, b: string): (r: int)
    ensures -1 <= r <= 1
    ensures r == 0 <==> a == b
    decreases |a|
  {
    if a == [] then (if b == [] then 0 else -1)
    else if b == [] then 1
    else if a[0] < b[0] then -1
    else if a[0] > b[0] then 1
    else
      var r := Compare(a[1..], b[1..]);
      assert r == 0 ==> a == [a[0]] + a[1..] && b == [b[0]] + b[1..];
      r
  }

  /** The sign of compare(a, b) is the opposite of the sign of compare(b, a). */
  lemma {:induction false} CompareAntisymmetric(a: string, b: string)
    ensures Compare(a, b) == -Compare(b, a)
    decreases |a|
  {
    if a != [] && b != [] && a[0] == b[0] {
      CompareAntisymmetric(a[1..], b[1..]);
    }
  }

  lemma {:induction false} CompareLessTransitive(a: string, b: string, c: string)
    requires Compare(a, b) < 0 && Compare(b, c) < 0
    ensures Compare(a, c) < 0
    decreases |a|
  {
    if a != [] && b != [] && c != [] && a[0] == b[0] && b[0] == c[0] {
      CompareLessTransitive(a[1..], b[1..], c[1..]);
    }
  }

  /** From compare(a, b) > 0 and compare(b, c) > 0 follows compare(a, c) > 0. */
  lemma CompareTransitive(a: string, b: string, c: string)
    requires Compare(a, b) > 0 && Compare(b, c) > 0
    ensures Compare(a, c) > 0
  {
    CompareAntisymmetric(a, b);
    CompareAntisymmetric(b, c);
    CompareAntisymmetric(a, c);
    CompareLessTransitive(c, b, a);
  }

  lemma CompareAtMostTransitive(a: string, b: string, c: string)
    requires Compare(a, b) <= 0 && Compare(b, c) <= 0
    ensures Compare(a, c) <= 0
  {
    if Compare(a, b) < 0 && Compare(b, c) < 0 {
      CompareLessTransitive(a, b, c);
    }
  }

  /** The label an entry is sorted by (entries are sorted only after their labels are loaded). */
  function Key(e: AppEntry): string
    reads e
  {
    e.labelText.GetOr("")
  }

  /** `ALPHA_COMPARATOR.compare`. */
  function AlphaCompare(e1: AppEntry, e2: AppEntry): (r: int)
    reads e1, e2
    ensures -1 <= r <= 1
    ensures r == 0 <==> Key(e1) == Key(e2)
  {
    Compare(Key(e1), Key(e2))
  }

  predicate SortedByLabel(s: seq<AppEntry>)
    reads s
  {
    forall i, j :: 0 <= i < j < |s| ==> AlphaCompare(s[i], s[j]) <= 0
  }

  /** Insert `e` after every entry whose label is not greater than its own. */
  function InsertByLabel(e: AppEntry, s: seq<AppEntry>): (r: seq<AppEntry>)
    reads e, set x | x in s
    ensures |r| == |s| + 1
    ensures multiset(r) == multiset(s) + multiset{e}
  {
    if s == [] then [e]
    else if AlphaCompare(s[0], e) <= 0 then
      assert s == [s[0]] + s[1..];
      [s[0]] + InsertByLabel(e, s[1..])
    else [e] + s
  }

  /** `Collections.sort(entries, ALPHA_COMPARATOR)`: a stable sort, here by insertion. */
  function SortByLabel(s: seq<AppEntry>): (r: seq<AppEntry>)
    reads set x | x in s
    ensures |r| == |s|
    ensures multiset(r) == multiset(s)
  {
    if s == [] then []
    else
      var init := s[..|s| - 1];
      assert s == init + [s[|s| - 1]];
      var sorted := SortByLabel(init);
      assert forall x :: x in sorted ==> x in multiset(init);
      InsertByLabel(s[|s| - 1], sorted)
  }

  /** The application infos of a list of entries, in order. */
  function Infos(s: seq<AppEntry>): (r: seq<ApplicationInfo>)
    ensures |r| == |s|
  {
    if s == [] then [] else [s[0].info] + Infos(s[1..])
  }

  lemma {:induction false} InfosAppend(a: seq<AppEntry>, b: seq<AppEntry>)
    ensures Infos(a + b) == Infos(a) + Infos(b)
    decreases |a|
  {
    if a == [] {
      assert a + b == b;
    } else {
      var ab := a + b;
      assert ab[0] == a[0];
      assert ab[1..] == a[1..] + b;
      InfosAppend(a[1..], b);
      calc {
        Infos(ab);
        [a[0].info] + Infos(a[1..] + b);
        [a[0].info] + (Infos(a[1..]) + Infos(b));
        ([a[0].info] + Infos(a[1..])) + Infos(b);
      }
    }
  }

  lemma {:induction false} InsertByLabelSorted(e: AppEntry, s: seq<AppEntry>)
    requires SortedByLabel(s)
    ensures SortedByLabel(InsertByLabel(e, s))
    decreases |s|
  {
    if s != [] {
      var r := InsertByLabel(e, s);
      if AlphaCompare(s[0], e) <= 0 {
        var t := InsertByLabel(e, s[1..]);
        InsertByLabelSorted(e, s[1..]);
        assert r == [s[0]] + t;
        forall i, j | 0 <= i < j < |r|
          ensures AlphaCompare(r[i], r[j]) <= 0
        {
          assert r[j] == t[j - 1];
          if i == 0 && r[j] != e {
            assert r[j] in multiset(t);
            assert r[j] in s[1..];
            var k :| 0 <= k < |s[1..]| && s[1..][k] == r[j];
            assert s[k + 1] == r[j];
          } else if i > 0 {
            assert r[i] == t[i - 1];
          }
        }
      } else {
        PrependSmallerSorted(e, s);
      }
    }
  }

  /** Putting an entry whose label precedes the head's in front of a sorted list keeps it sorted. */
  lemma PrependSmallerSorted(e: AppEntry, s: seq<AppEntry>)
    requires SortedByLabel(s) && s != [] && AlphaCompare(s[0], e) > 0
    ensures SortedByLabel([e] + s)
  {
    var r := [e] + s;
    CompareAntisymmetric(Key(s[0]), Key(e));
    forall i, j | 0 <= i < j < |r|
      ensures AlphaCompare(r[i], r[j]) <= 0
    {
      if i == 0 && j > 1 {
        CompareAtMostTransitive(Key(e), Key(s[0]), Key(s[j - 1]));
      }
    }
  }

  lemma {:induction false} InsertByLabelKeepsInfos(e: AppEntry, s: seq<AppEntry>)
    ensures multiset(Infos(InsertByLabel(e, s))) == multiset(Infos(s)) + multiset{e.info}
    decreases |s|
  {
    if s != [] {
      if AlphaCompare(s[0], e) <= 0 {
        InsertByLabelKeepsInfos(e, s[1..]);
        assert InsertByLabel(e, s) == [s[0]] + InsertByLabel(e, s[1..]);
      } else {
        assert InsertByLabel(e, s) == [e] + s;
      }
    }
  }

  /** The sort yields its entries in label order. */
  lemma {:induction false} SortByLabelSorts(s: seq<AppEntry>)
    ensures SortedByLabel(SortByLabel(s))
  {
    if s != [] {
      var init := s[..|s| - 1];
      SortByLabelSorts(init);
      InsertByLabelSorted(s[|s| - 1], SortByLabel(init));
    }
  }

  /** The sort yields exactly the entries it was given. */
  lemma SortByLabelKeepsEntries(s: seq<AppEntry>)
    ensures forall x :: x in SortByLabel(s) <==> x in s
  {
    var r := SortByLabel(s);
    forall x
      ensures x in r <==> x in s
    {
      assert x in r <==> x in multiset(r);
      assert x in s <==> x in multiset(s);
    }
  }

  /** The sort yields the same application infos. */
  lemma {:induction false} SortByLabelKeepsInfos(s: seq<AppEntry>)
    ensures multiset(Infos(SortByLabel(s))) == multiset(Infos(s))
  {
    if s != [] {
      var init := s[..|s| - 1];
      var last := s[|s| - 1];
      var sortedInit := SortByLabel(init);
      assert SortByLabel(s) == InsertByLabel(last, sortedInit);
      InsertByLabelKeepsInfos(last, sortedInit);
      SortByLabelKeepsInfos(init);
      InfosOfLast(s);
    }
  }

  lemma InfosOfLast(s: seq<AppEntry>)
    requires s != []
    ensures multiset(Infos(s)) == multiset(Infos(s[..|s| - 1])) + multiset{s[|s| - 1].info}
  {
    var init, last := s[..|s| - 1], s[|s| - 1];
    assert s == init + [last];
    InfosSnoc(init, last);
    assert Infos(s) == Infos(init) + [last.info];
  }

  lemma InfosSnoc(s: seq<AppEntry>, e: AppEntry)
    ensures Infos(s + [e]) == Infos(s) + [e.info]
  {
    InfosAppend(s, [e]);
    assert Infos([e]) == [e.info] + Infos([]);
  }

  // ---------------------------------------------------------------------------------------------
  // InterestingConfigChanges

  /** `ActivityInfo.CONFIG_LOCALE`, `CONFIG_SCREEN_LAYOUT` and `CONFIG_UI_MODE`. */
  const CONFIG_LOCALE: bv32 := 0x0004
  const CONFIG_SCREEN_LAYOUT: bv32 := 0x0100
  const CONFIG_UI_MODE: bv32 := 0x0200

  /**
   * The parts of a `Configuration` that `applyNewConfig` watches. A `None` locale or a 0 mode or
   * layout is undefined, as in a `new Configuration()`.
   */
  datatype Configuration = Configuration(locale: Option<string>, uiMode: nat, screenLayout: nat)

  /** What `new Configuration()` holds: every watched part undefined. */
  const INITIAL_CONFIGURATION := Configuration(None, 0, 0)

  /** The configuration after `updateFrom`, and the mask of the parts it changed. */
  datatype ConfigUpdate = ConfigUpdate(config: Configuration, changes: bv32)

  /**
   * `Configuration.updateFrom(delta)`: each part `delta` defines and that differs is copied over
   * and its bit reported; undefined parts of `delta` leave the old ones.
   */
  function UpdateFrom(last: Configuration, delta: Configuration): (u: ConfigUpdate)
    ensures u.config.locale == if delta.locale.Some? then delta.locale else last.locale
    ensures u.config.uiMode == if delta.uiMode != 0 then delta.uiMode else last.uiMode
    ensures u.config.screenLayout == if delta.screenLayout != 0 then delta.screenLayout else last.screenLayout
    ensures (u.changes & CONFIG_LOCALE != 0) <==> delta.locale.Some? && delta.locale != last.locale
    ensures (u.changes & CONFIG_UI_MODE != 0) <==> delta.uiMode != 0 && delta.uiMode != last.uiMode
    ensures (u.changes & CONFIG_SCREEN_LAYOUT != 0) <==>
              delta.screenLayout != 0 && delta.screenLayout != last.screenLayout
    ensures u.changes & !(CONFIG_LOCALE | CONFIG_UI_MODE | CONFIG_SCREEN_LAYOUT) == 0
  {
    var l: bv32 := if delta.locale.Some? && delta.locale != last.locale then CONFIG_LOCALE else 0;
    var m: bv32 := if delta.uiMode != 0 && delta.uiMode != last.uiMode then CONFIG_UI_MODE else 0;
    var s: bv32 := if delta.screenLayout != 0 && delta.screenLayout != last.screenLayout then CONFIG_SCREEN_LAYOUT else 0;
    ConfigUpdate(
      Configuration(if delta.locale.Some? then delta.locale else last.locale,
                    if delta.uiMode != 0 then delta.uiMode else last.uiMode,
                    if delta.screenLayout != 0 then delta.screenLayout else last.screenLayout),
      l | m | s)
  }

  /** Updating from the same configuration twice: the second update changes and reports nothing. */
  lemma UpdateFromTwiceReportsNothing(last: Configuration, delta: Configuration)
    ensures var once := UpdateFrom(last, delta).config;
            UpdateFrom(once, delta) == ConfigUpdate(once, 0)
  {
    var once := UpdateFrom(last, delta).config;
    var twice := UpdateFrom(once, delta);
    assert twice.config == once;
    assert twice.changes & (CONFIG_LOCALE | CONFIG_UI_MODE | CONFIG_SCREEN_LAYOUT) == 0 by {
      assert twice.changes & CONFIG_LOCALE == 0 && twice.changes & CONFIG_UI_MODE == 0
             && twice.changes & CONFIG_SCREEN_LAYOUT == 0;
    }
  }

  /** Whether a new configuration (which changed the bits in `changes`) calls for a reload. */
  function IsInterestingChange(lastDensity: int, changes: bv32, density: int): (r: bool) {
    lastDensity != density || changes & (CONFIG_LOCALE | CONFIG_UI_MODE | CONFIG_SCREEN_LAYOUT) != 0
  }

  /** A reload is called for exactly when the density or one of the three watched bits changed. */
  lemma InterestingChangeBits(lastDensity: int, changes: bv32, density: int)
    ensures IsInterestingChange(lastDensity, changes, density) <==>
              || lastDensity != density
              || changes & CONFIG_LOCALE != 0
              || changes & CONFIG_UI_MODE != 0
              || changes & CONFIG_SCREEN_LAYOUT != 0
  {
  }

  class InterestingConfigChanges {
    /** `mLastConfiguration`. */
    var lastConfiguration: Configuration
    /** `mLastDensity`. */
    var lastDensity: int

    constructor ()
      ensures lastConfiguration == INITIAL_CONFIGURATION && lastDensity == 0
    {
      lastConfiguration := INITIAL_CONFIGURATION;
      lastDensity := 0;
    }

    /** `applyNewConfig`, for the current configuration `config` and its `densityDpi`, `density`. */
    method ApplyNewConfig(config: Configuration, density: int) returns (changed: bool)
      modifies this
      ensures lastConfiguration == UpdateFrom(old(lastConfiguration), config).config
      ensures changed == IsInterestingChange(old(lastDensity), UpdateFrom(old(lastConfiguration), config).changes, density)
      ensures lastDensity == density
    {
      var update := UpdateFrom(lastConfiguration, config);
      lastConfiguration := update.config;
      var changes := update.changes;
      var densityChanged := lastDensity != density;
      if densityChanged || changes & (CONFIG_LOCALE | CONFIG_UI_MODE | CONFIG_SCREEN_LAYOUT) != 0 {
        lastDensity := density;
        return true;
      }
      return false;
    }
  }

  /**
   * Once a configuration and density have been applied, applying them again is not an
   * interesting change: a loader restarted without a configuration change does not reload.
   */
  lemma ReapplyIsNotInteresting(last: Configuration, config: Configuration, density: int)
    ensures var once := UpdateFrom(last, config).config;
            !IsInterestingChange(density, UpdateFrom(once, config).changes, density)
  {
    UpdateFromTwiceReportsNothing(last, config);
  }

  /** A change of one watched part, from one defined value to another, is always interesting. */
  lemma NewLocaleIsInteresting(last: Configuration, lastDensity: int, config: Configuration, density: int)
    requires config.locale.Some? && config.locale != last.locale
    ensures IsInterestingChange(lastDensity, UpdateFrom(last, config).changes, density)
  {
    var changes := UpdateFrom(last, config).changes;
    assert changes & CONFIG_LOCALE != 0;
    InterestingChangeBits(lastDensity, changes, density);
  }

  // ---------------------------------------------------------------------------------------------
  // AppListLoader

  /** A `List<AppEntry>` result; lists are told apart by identity, as the loader compares them. */
  class AppList {
    const entries: seq<AppEntry>

    constructor (entries: seq<AppEntry>)
      ensures this.entries == entries
    {
      this.entries := entries;
    }
  }

  /**
   * What one call of `deliverResult` does: the list the loader keeps in `mApps`, whether the new
   * result goes to the client, and the lists handed to `onReleaseResources`, in order.
   */
  datatype Delivery = Delivery(kept: AppList?, forwarded: bool, released: seq<AppList?>)

  /** `deliverResult` as written: release the new result when reset, then keep it and release the old one. */
  function DeliverAsWritten(current: AppList?, apps: AppList?, started: bool, reset: bool): (d: Delivery)
    ensures d.kept == apps && d.forwarded == started
    ensures apps != null ==> (apps in d.released <==> reset || apps == current)
    ensures current != null ==> current in d.released
    ensures forall x :: x in d.released ==> x == apps || x == current
    ensures |d.released| <= 2
  {
    Delivery(apps, started,
      (if reset && apps != null then [apps] else []) + (if current != null then [current] else []))
  }

  /** As written, `onStartLoading`'s re-delivery of the cached list releases the list it just delivered. */
  lemma AsWrittenReleasesRedeliveredList(apps: AppList)
    ensures DeliverAsWritten(apps, apps, true, false) == Delivery(apps, true, [apps])
  {
  }

  /** As written, a result that arrives after a reset is released and then kept all the same. */
  lemma AsWrittenKeepsReleasedLateResult(apps: AppList)
    ensures DeliverAsWritten(null, apps, false, true) == Delivery(apps, false, [apps])
  {
  }

  /**
   * `deliverResult` corrected: a reset loader releases the late result and keeps nothing new; a
   * list is released only when it is replaced by a different one.
   */
  function Deliver(current: AppList?, apps: AppList?, started: bool, reset: bool): (d: Delivery)
    ensures |d.released| <= 1
    ensures reset ==> d.kept == current && !d.forwarded
    ensures reset ==> (forall x :: x in d.released ==> x == apps) && (apps != null ==> apps in d.released)
    ensures !reset ==> d.kept == apps && d.forwarded == started
    ensures !reset ==> (forall x :: x in d.released ==> x == current && x != apps)
                       && (current != null && current != apps ==> current in d.released)
  {
    if reset then Delivery(current, false, if apps != null then [apps] else [])
    else Delivery(apps, started, if current != null && current != apps then [current] else [])
  }

  /**
   * With the correction, the list the loader keeps (and so may hand out again) is never one it
   * has released, and neither is a list it has just delivered to the client.
   */
  lemma DeliverNeverReleasesLiveList(current: AppList?, apps: AppList?, started: bool, reset: bool)
    requires reset ==> current == null
    ensures var d := Deliver(current, apps, started, reset);
            (d.kept != null ==> d.kept !in d.released) && (d.forwarded ==> apps !in d.released)
  {
  }

  /** `Intent.ACTION_PACKAGE_*` and the external-applications broadcasts, reported to the loader. */
  class PackageIntentReceiver {
    const loader: AppListLoader
    /** Whether the receiver is registered with the context. */
    var registered: bool

    /** The constructor registers the receiver for package and SD-card broadcasts. */
    constructor (loader: AppListLoader)
      ensures this.loader == loader && registered
    {
      this.loader := loader;
      registered := true;
    }

    method Unregister()
      modifies this
      ensures !registered
    {
      registered := false;
    }

    /** `onReceive`: tell the loader that its content changed. */
    method OnReceive()
      modifies loader
      ensures loader.started ==> loader.forceLoads == old(loader.forceLoads) + 1
                                  && loader.contentChanged == old(loader.contentChanged)
      ensures !loader.started ==> loader.contentChanged && loader.forceLoads == old(loader.forceLoads)
      ensures loader.apps == old(loader.apps) && loader.started == old(loader.started)
    {
      loader.OnContentChanged();
    }
  }

  /** An entry as `loadInBackground` leaves it: its label loaded against `apks`, no icon yet. */
  predicate LoadedFrom(e: AppEntry, apks: set<string>)
    reads e
  {
    && e.labelText == Some(LabelFor(e.info, e.info.sourceDir in apks))
    && e.mounted == (e.info.sourceDir in apks)
    && e.icon == None
  }

  class AppListLoader {
    const lastConfig: InterestingConfigChanges
    /** `mApps`. */
    var apps: AppList?
    /** `mPackageObserver`. */
    var observer: PackageIntentReceiver?
    /** The loader states kept by the framework: `isStarted()`, `isReset()`, the content-changed flag. */
    var started: bool
    var isReset: bool
    var contentChanged: bool
    /** The results passed on to the client (`super.deliverResult`), in order. */
    var delivered: seq<AppList?>
    /** The lists passed to `onReleaseResources`, in order. */
    var released: seq<AppList?>
    /** How often a load has been forced, and how often cancelling one was attempted. */
    var forceLoads: nat
    var cancelAttempts: nat

    /** A new loader: not started and reset, holding nothing. */
    constructor ()
      ensures fresh(lastConfig) && lastConfig.lastConfiguration == INITIAL_CONFIGURATION && lastConfig.lastDensity == 0
      ensures apps == null && observer == null && !started && isReset && !contentChanged
      ensures delivered == [] && released == [] && forceLoads == 0 && cancelAttempts == 0
    {
      lastConfig := new InterestingConfigChanges();
      apps := null;
      observer := null;
      started := false;
      isReset := true;
      contentChanged := false;
      delivered := [];
      released := [];
      forceLoads := 0;
      cancelAttempts := 0;
    }

    /** A reset loader holds no list, and an observer, when there is one, reports to this loader. */
    predicate Valid()
      reads this, observer
    {
      (isReset ==> apps == null) && (observer != null ==> observer.loader == this)
    }

    /**
     * `loadInBackground`: one entry per installed application (none when the package manager
     * returns null), each with its label loaded, sorted by `ALPHA_COMPARATOR`.
     */
    method LoadInBackground(installed: Option<seq<ApplicationInfo>>, apks: set<string>) returns (result: AppList)
      ensures fresh(result)
      ensures var infos := if installed.Some? then installed.value else [];
              |result.entries| == |infos| && multiset(Infos(result.entries)) == multiset(infos)
      ensures forall x :: x in result.entries ==> fresh(x) && LoadedFrom(x, apks)
      ensures SortedByLabel(result.entries)
    {
      var entries := LoadEntries(if installed.Some? then installed.value else [], apks);
      result := new AppList(entries);
    }

    /** The body of `loadInBackground` up to building the result list. */
    static method LoadEntries(infos: seq<ApplicationInfo>, apks: set<string>) returns (sorted: seq<AppEntry>)
      ensures |sorted| == |infos| && multiset(Infos(sorted)) == multiset(infos)
      ensures forall x :: x in sorted ==> fresh(x) && LoadedFrom(x, apks)
      ensures SortedByLabel(sorted)
    {
      var entries := NewEntries(infos, apks);
      sorted := SortByLabel(entries);
      SortByLabelSorts(entries);
      SortByLabelKeepsInfos(entries);
      SortByLabelKeepsEntries(entries);
      assert multiset(Infos(sorted)) == multiset(infos);
      forall x | x in sorted
        ensures fresh(x) && LoadedFrom(x, apks)
      {
        assert x in entries;
      }
    }

    /** The loop of `loadInBackground`: one new entry per application, its label loaded. */
    static method NewEntries(infos: seq<ApplicationInfo>, apks: set<string>) returns (entries: seq<AppEntry>)
      ensures Infos(entries) == infos
      ensures forall x :: x in entries ==> fresh(x) && LoadedFrom(x, apks)
    {
      entries := [];
      var i := 0;
      while i < |infos|
        invariant 0 <= i <= |infos| && |entries| == i
        invariant Infos(entries) == infos[..i]
        invariant forall x :: x in entries ==> fresh(x) && LoadedFrom(x, apks)
      {
        var entry := new AppEntry(infos[i]);
        entry.LoadLabel(apks);
        InfosSnoc(entries, entry);
        entries := entries + [entry];
        assert infos[..i + 1] == infos[..i] + [infos[i]];
        i := i + 1;
      }
      assert infos[..i] == infos;
    }

    /** `onContentChanged` (from the framework): reload now if started, else remember the change. */
    method OnContentChanged()
      modifies this
      ensures started ==> forceLoads == old(forceLoads) + 1 && contentChanged == old(contentChanged)
      ensures !started ==> contentChanged && forceLoads == old(forceLoads)
      ensures apps == old(apps) && observer == old(observer) && started == old(started) && isReset == old(isReset)
      ensures delivered == old(delivered) && released == old(released) && cancelAttempts == old(cancelAttempts)
    {
      if started {
        forceLoads := forceLoads + 1;
      } else {
        contentChanged := true;
      }
    }

    /** `takeContentChanged` (from the framework): read and clear the content-changed flag. */
    method TakeContentChanged() returns (changed: bool)
      modifies this
      ensures changed == old(contentChanged) && !contentChanged
      ensures apps == old(apps) && observer == old(observer) && started == old(started) && isReset == old(isReset)
      ensures delivered == old(delivered) && released == old(released)
      ensures forceLoads == old(forceLoads) && cancelAttempts == old(cancelAttempts)
    {
      changed := contentChanged;
      contentChanged := false;
    }

    /** `deliverResult`, with the correction described by `Deliver`. */
    method DeliverResult(result: AppList?)
      requires Valid()
      modifies this
      ensures Valid()
      ensures var d := Deliver(old(apps), result, old(started), old(isReset));
              && apps == d.kept
              && delivered == old(delivered) + (if d.forwarded then [result] else [])
              && released == old(released) + d.released
      ensures observer == old(observer) && started == old(started) && isReset == old(isReset)
      ensures contentChanged == old(contentChanged)
      ensures forceLoads == old(forceLoads) && cancelAttempts == old(cancelAttempts)
    {
      if isReset {
        if result != null {
          released := released + [result];
        }
        return;
      }
      var oldApps := apps;
      apps := result;
      if started {
        delivered := delivered + [result];
      }
      if oldApps != null && oldApps != result {
        released := released + [oldApps];
      }
    }

    /**
     * `onStartLoading`: hand out the cached list, start watching the packages if not yet, and
     * force a load when the content changed, nothing is cached, or the configuration changed in
     * an interesting way. `config` and `density` are the current configuration.
     */
    method OnStartLoading(config: Configuration, density: int)
      requires Valid()
      modifies this, lastConfig
      ensures Valid()
      ensures apps == old(apps) && started == old(started) && isReset == old(isReset)
      ensures delivered == old(delivered) + (if old(apps) != null && started && !isReset then [old(apps)] else [])
      ensures released == old(released)
      ensures old(observer) != null ==> observer == old(observer)
      ensures old(observer) == null ==> fresh(observer) && observer.registered
      ensures lastConfig.lastConfiguration == UpdateFrom(old(lastConfig.lastConfiguration), config).config
      ensures lastConfig.lastDensity == density && !contentChanged
      ensures forceLoads == old(forceLoads) +
                (if old(contentChanged) || old(apps) == null
                    || IsInterestingChange(old(lastConfig.lastDensity),
                                           UpdateFrom(old(lastConfig.lastConfiguration), config).changes, density)
                 then 1 else 0)
      ensures cancelAttempts == old(cancelAttempts)
    {
      if apps != null {
        DeliverResult(apps);
      }
      if observer == null {
        observer := new PackageIntentReceiver(this);
      }
      var configChange := lastConfig.ApplyNewConfig(config, density);
      var taken := TakeContentChanged();
      if taken || apps == null || configChange {
        forceLoads := forceLoads + 1;
      }
    }

    /** `startLoading` (from the framework): mark the loader started, then `onStartLoading`. */
    method StartLoading(config: Configuration, density: int)
      requires Valid()
      modifies this, lastConfig
      ensures Valid() && started && !isReset && apps == old(apps)
      ensures delivered == old(delivered) + (if old(apps) != null then [old(apps)] else [])
      ensures released == old(released)
      ensures observer != null && (old(observer) != null ==> observer == old(observer))
    {
      started := true;
      isReset := false;
      OnStartLoading(config, density);
    }

    /** `onStopLoading`: attempt to cancel the current load. */
    method OnStopLoading()
      modifies this
      ensures cancelAttempts == old(cancelAttempts) + 1
      ensures apps == old(apps) && observer == old(observer) && started == old(started) && isReset == old(isReset)
      ensures contentChanged == old(contentChanged)
      ensures delivered == old(delivered) && released == old(released) && forceLoads == old(forceLoads)
    {
      cancelAttempts := cancelAttempts + 1;
    }

    /** `onCanceled`: release a result whose load was cancelled. */
    method OnCanceled(result: AppList?)
      modifies this
      ensures released == old(released) + [result]
      ensures apps == old(apps) && observer == old(observer) && started == old(started) && isReset == old(isReset)
      ensures contentChanged == old(contentChanged)
      ensures delivered == old(delivered) && forceLoads == old(forceLoads) && cancelAttempts == old(cancelAttempts)
    {
      released := released + [result];
    }

    /** `onReset`: stop, release and drop the cached list, and stop watching the packages. */
    method OnReset()
      requires Valid()
      modifies this, observer
      ensures apps == null && observer == null
      ensures cancelAttempts == old(cancelAttempts) + 1
      ensures released == old(released) + (if old(apps) != null then [old(apps)] else [])
      ensures old(observer) != null ==> !old(observer).registered
      ensures started == old(started) && isReset == old(isReset) && contentChanged == old(contentChanged)
      ensures delivered == old(delivered) && forceLoads == old(forceLoads)
    {
      OnStopLoading();
      if apps != null {
        released := released + [apps];
        apps := null;
      }
      if observer != null {
        observer.Unregister();
        observer := null;
      }
    }

    /** `reset` (from the framework): `onReset`, then mark the loader reset and stopped. */
    method Reset()
      requires Valid()
      modifies this, observer
      ensures Valid() && isReset && !started && !contentChanged
      ensures apps == null && observer == null
      ensures released == old(released) + (if old(apps) != null then [old(apps)] else [])
    {
      OnReset();
      isReset := true;
      started := false;
      contentChanged := false;
    }
  }

  // ---------------------------------------------------------------------------------------------
  // AppListAdapter

  class AppListAdapter {
    /** The adapter's items, in display order. */
    var items: seq<AppEntry>

    constructor ()
      ensures items == []
    {
      items := [];
    }

    /** `setData`: clear, then add all of the new list (nothing for null). */
    method SetData(data: AppList?)
      modifies this
      ensures items == if data == null then [] else data.entries
    {
      items := [];
      if data != null {
        items := items + data.entries;
      }
    }
  }
}
