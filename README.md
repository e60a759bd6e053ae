# ApiDemos app samples: a verified Dafny model

This project models the small state machines and decision rules inside eight samples of the
Android ApiDemos application. The framework each sample calls is treated as an abstract oracle.
Each Java file becomes one Dafny module. Objects whose fields the sample updates become classes
with `modifies` clauses. Pure switches and computations become functions. Each is proved against
the behaviour the code and its doc comments promise.

- `LoaderCustom` (loader_custom.dfy): the list of installed applications.
  - `AppEntry` keeps a label, an icon and a mounted flag.
  - `ALPHA_COMPARATOR` orders entries by label, and `Collections.sort` is modelled as a stable insertion sort.
  - `InterestingConfigChanges` holds the density and watched-bit test.
  - `AppListLoader` holds the result cache: deliver, release, force a load, reset.
  - `AppListAdapter.setData` replaces the adapter's contents.
- `LoaderThrottle` (loader_throttle.dfy): a content provider over one table.
  - URI matching decides the MIME type and which rows a request touches.
  - `insert`, `delete`, `update` and `query` follow from it.
  - The "Populate" task inserts "Data Z" down to "Data A"; "Clear" empties the table.
- `FragmentDialog` (fragment_dialog.dfy): the stack level cycles through 1..8 (Java `int` wrap-around included). Also the style and theme tables, and saving and restoring the level.
- `PresentationWithMediaRouterActivity` (presentation.dfy): which display holds the presentation, and which surface is visible or paused.
- `RedirectMain` (redirect_main.dfy): the stored "text" preference and the request-code dispatch.
- `ReceiveResult` (receive_result.dfy): the append-only result log.
- `RotationAnimation` (rotation_animation.dfy): setting and clearing FLAG_FULLSCREEN, and the radio-button-to-animation mapping.
- `AlertDialogSamples` (alert_dialog_samples.dfy): dialog-id dispatch, and the progress counter driven by a self-rescheduling handler. The handler's message queue is modelled as a loop.

Shared modules: `Common` (common.dfy, an `Option` type) and `Decimal` (decimal.dfy).
`Decimal` models `Integer.toString`, the digit runs that `UriMatcher`'s `#` accepts, and
reading them back.

Framework calls that the model cannot see become parameters:

| framework call | modelled as |
|---|---|
| `File.exists` | a set of APK paths present, `apks` |
| `ApplicationInfo.loadLabel` | an optional label in `ApplicationInfo` |
| `Configuration.updateFrom` | the mask of changed bits |
| the row id SQLite returns | a parameter, `rowId` or `engine(i)` |
| `isCancelled()` | the number of checks that find the task still running |
| `Presentation.show()` throwing | a flag, `showFails` |
| the selected media route | an optional `RouteInfo` |

Where a field stands for the observable effect of a framework call, the field is named after that effect:

| framework effect | field |
|---|---|
| `super.deliverResult` | `delivered` |
| `onReleaseResources` | `released` |
| `forceLoad` | `forceLoads` |
| `cancelLoad` | `cancelAttempts` |
| `startActivityForResult` | `launched` |
| `finish` | `finished` |

## Model

| member | source | states |
|---|---|---|
| LoaderCustom.LabelFor | app/src/main/java/com/example/android/apis/app/LoaderCustom.java:240-247 | a definition the contracts of `LoadedLabel`, `LoadedFrom` and `LoadInBackground` use: the label a loaded entry ends with, the package name when the APK is missing, else the loaded label or the package name |
| LoaderCustom.LoadedLabel | app/src/main/java/com/example/android/apis/app/LoaderCustom.java:238-249 | an entry with a label that is mounted is left unchanged; otherwise mounted becomes "APK exists" and the label becomes `LabelFor`; a label is always set afterwards |
| LoaderCustom.LoadLabelIdempotent | app/src/main/java/com/example/android/apis/app/LoaderCustom.java:238-249 | loading the label a second time, with the APK unchanged, changes nothing |
| LoaderCustom.AppEntry.constructor | app/src/main/java/com/example/android/apis/app/LoaderCustom.java:129-133 | a new entry has its info, no label, no icon, and is not mounted |
| LoaderCustom.AppEntry.LoadLabel | app/src/main/java/com/example/android/apis/app/LoaderCustom.java:238-249 | the new label and mounted flag are `LoadedLabel` of the old ones; the icon is untouched |
| LoaderCustom.IconFor | app/src/main/java/com/example/android/apis/app/LoaderCustom.java:179-203 | the default icon is returned iff the APK is missing and the entry does not have a cached icon while mounted; any other result is the cached icon; a missing APK with no icon clears mounted |
| LoaderCustom.IconIsCached | app/src/main/java/com/example/android/apis/app/LoaderCustom.java:179-203 | with the APK present and no default icon cached, `getIcon` returns a non-default icon, and asking again returns the same one |
| LoaderCustom.AppEntry.GetIcon | app/src/main/java/com/example/android/apis/app/LoaderCustom.java:179-203 | icon, mounted flag and returned drawable are those of `IconFor`; the label is untouched |
| LoaderCustom.Compare | app/src/main/java/com/example/android/apis/app/LoaderCustom.java:262-288 | the comparison yields -1, 0 or 1, and 0 exactly for equal labels (`compare(a,a)` is 0) |
| LoaderCustom.AlphaCompare | app/src/main/java/com/example/android/apis/app/LoaderCustom.java:286-288 | `ALPHA_COMPARATOR.compare` on the two labels (an unset label as ""): -1, 0 or 1, and 0 exactly for equal labels |
| LoaderCustom.CompareAntisymmetric | app/src/main/java/com/example/android/apis/app/LoaderCustom.java:266-267 | the sign of compare(a,b) is the opposite of the sign of compare(b,a) |
| LoaderCustom.CompareTransitive | app/src/main/java/com/example/android/apis/app/LoaderCustom.java:268-269 | compare(a,b) > 0 and compare(b,c) > 0 give compare(a,c) > 0 |
| LoaderCustom.CompareLessTransitive | app/src/main/java/com/example/android/apis/app/LoaderCustom.java:268-269 | the same transitivity for < 0 |
| LoaderCustom.CompareAtMostTransitive | app/src/main/java/com/example/android/apis/app/LoaderCustom.java:262-272 | "not greater" is transitive, which a sort by this comparator relies on |
| LoaderCustom.InsertByLabel | app/src/main/java/com/example/android/apis/app/LoaderCustom.java:497 | inserting one entry adds exactly that entry to the multiset of entries |
| LoaderCustom.SortByLabel | app/src/main/java/com/example/android/apis/app/LoaderCustom.java:497 | the sort keeps the length and the multiset of entries (a permutation) |
| LoaderCustom.InsertByLabelSorted | app/src/main/java/com/example/android/apis/app/LoaderCustom.java:497 | inserting into a label-sorted list keeps it sorted |
| LoaderCustom.InsertByLabelKeepsInfos | app/src/main/java/com/example/android/apis/app/LoaderCustom.java:497 | inserting adds exactly the entry's application info to the multiset of infos |
| LoaderCustom.SortByLabelSorts | app/src/main/java/com/example/android/apis/app/LoaderCustom.java:497 | the sorted list is in `ALPHA_COMPARATOR` order |
| LoaderCustom.SortByLabelKeepsInfos | app/src/main/java/com/example/android/apis/app/LoaderCustom.java:497 | the sorted list holds the same application infos as the unsorted one |
| LoaderCustom.SortByLabelKeepsEntries | app/src/main/java/com/example/android/apis/app/LoaderCustom.java:497 | the sorted list holds exactly the entries it was given |
| LoaderCustom.UpdateFrom | app/src/main/java/com/example/android/apis/app/LoaderCustom.java:335 | `Configuration.updateFrom`: each watched part the new configuration defines and that differs is copied and its bit set; undefined parts keep the old value; no other bit is set |
| LoaderCustom.UpdateFromTwiceReportsNothing | app/src/main/java/com/example/android/apis/app/LoaderCustom.java:335 | updating twice from the same configuration changes nothing and reports no bit the second time |
| LoaderCustom.IsInterestingChange | app/src/main/java/com/example/android/apis/app/LoaderCustom.java:336-338 | a definition `ApplyNewConfig`'s contract uses: the density changed or one of the LOCALE, UI_MODE and SCREEN_LAYOUT bits is set |
| LoaderCustom.InterestingChangeBits | app/src/main/java/com/example/android/apis/app/LoaderCustom.java:336-338 | a change is interesting iff the density changed or the LOCALE, UI_MODE or SCREEN_LAYOUT bit is among the changes |
| LoaderCustom.InterestingConfigChanges.constructor | app/src/main/java/com/example/android/apis/app/LoaderCustom.java:307-313 | the last configuration starts as `new Configuration()` (every part undefined) and the last density at 0, Java's default |
| LoaderCustom.InterestingConfigChanges.ApplyNewConfig | app/src/main/java/com/example/android/apis/app/LoaderCustom.java:334-343 | the last configuration becomes `UpdateFrom` of the old one; returns whether that update's bits or the density make the change interesting; afterwards the last density is the current one |
| LoaderCustom.ReapplyIsNotInteresting | app/src/main/java/com/example/android/apis/app/LoaderCustom.java:334-343 | applying the same configuration and density a second time is not an interesting change, so a restart without a configuration change does not reload |
| LoaderCustom.NewLocaleIsInteresting | app/src/main/java/com/example/android/apis/app/LoaderCustom.java:334-343 | a newly defined or different locale is always an interesting change, whatever the density |
| LoaderCustom.AppList.constructor | app/src/main/java/com/example/android/apis/app/LoaderCustom.java:489 | a result list holding the given entries |
| LoaderCustom.DeliverAsWritten | app/src/main/java/com/example/android/apis/app/LoaderCustom.java:525-549 | `deliverResult` as written: the new result is always kept and forwarded iff started; the released lists are the new result when reset, and then any old list |
| LoaderCustom.AsWrittenReleasesRedeliveredList | app/src/main/java/com/example/android/apis/app/LoaderCustom.java:534-548 | as written, redelivering the cached list releases that very list while keeping and forwarding it |
| LoaderCustom.AsWrittenKeepsReleasedLateResult | app/src/main/java/com/example/android/apis/app/LoaderCustom.java:526-535 | as written, a result arriving after reset is released and still stored as the cached list |
| LoaderCustom.Deliver | app/src/main/java/com/example/android/apis/app/LoaderCustom.java:525-549 | corrected delivery: when reset, only release the late result; otherwise keep the new result, forward it iff started, and release the old list iff it is non-null and a different list |
| LoaderCustom.DeliverNeverReleasesLiveList | app/src/main/java/com/example/android/apis/app/LoaderCustom.java:544-548 | with the correction, neither the kept list nor a forwarded result is ever among the released ones |
| LoaderCustom.PackageIntentReceiver.constructor | app/src/main/java/com/example/android/apis/app/LoaderCustom.java:383-395 | a receiver bound to its loader and registered |
| LoaderCustom.PackageIntentReceiver.Unregister | app/src/main/java/com/example/android/apis/app/LoaderCustom.java:656 | the receiver is no longer registered |
| LoaderCustom.PackageIntentReceiver.OnReceive | app/src/main/java/com/example/android/apis/app/LoaderCustom.java:407-410 | a broadcast forces a load of a started loader, else marks its content changed; its cache is untouched |
| LoaderCustom.AppListLoader.constructor | app/src/main/java/com/example/android/apis/app/LoaderCustom.java:423-452 | a new loader is reset and not started, with no cache, no observer and an unapplied configuration |
| LoaderCustom.AppListLoader.LoadInBackground | app/src/main/java/com/example/android/apis/app/LoaderCustom.java:476-501 | a fresh list with one fresh entry per installed application (none for null), as a multiset of infos; every entry's label is loaded; the list is sorted by label |
| LoaderCustom.AppListLoader.LoadEntries | app/src/main/java/com/example/android/apis/app/LoaderCustom.java:488-497 | the loop and the sort: same infos, fresh loaded entries, label order |
| LoaderCustom.AppListLoader.NewEntries | app/src/main/java/com/example/android/apis/app/LoaderCustom.java:488-494 | one fresh entry per application, in order, each with its label loaded |
| LoaderCustom.AppListLoader.OnContentChanged | app/src/main/java/com/example/android/apis/app/LoaderCustom.java:409 | a started loader forces a load; a stopped one remembers the change |
| LoaderCustom.AppListLoader.TakeContentChanged | app/src/main/java/com/example/android/apis/app/LoaderCustom.java:588 | returns the content-changed flag and clears it |
| LoaderCustom.AppListLoader.DeliverResult | app/src/main/java/com/example/android/apis/app/LoaderCustom.java:525-549 | cache, forwarded results and released lists change exactly as `Deliver` says; a reset loader keeps no list |
| LoaderCustom.AppListLoader.OnStartLoading | app/src/main/java/com/example/android/apis/app/LoaderCustom.java:572-593 | the cached list is delivered when non-null; an observer is created only if none exists; exactly one load is forced iff content changed, nothing is cached, or the configuration changed interestingly |
| LoaderCustom.AppListLoader.StartLoading | app/src/main/java/com/example/android/apis/app/LoaderCustom.java:572-593 | a started loader redelivers its cached list and always has an observer afterwards |
| LoaderCustom.AppListLoader.OnStopLoading | app/src/main/java/com/example/android/apis/app/LoaderCustom.java:602-610 | one more attempt to cancel the load; nothing else changes |
| LoaderCustom.AppListLoader.OnCanceled | app/src/main/java/com/example/android/apis/app/LoaderCustom.java:623-629 | the cancelled result is released; nothing else changes |
| LoaderCustom.AppListLoader.OnReset | app/src/main/java/com/example/android/apis/app/LoaderCustom.java:641-659 | a cancel is attempted, the cached list is released and cleared, and the observer is unregistered and cleared |
| LoaderCustom.AppListLoader.Reset | app/src/main/java/com/example/android/apis/app/LoaderCustom.java:641-659 | after a reset the loader is reset and stopped, with no cache and no observer |
| LoaderCustom.AppListAdapter.constructor | app/src/main/java/com/example/android/apis/app/LoaderCustom.java:712 | a new adapter is empty |
| LoaderCustom.AppListAdapter.SetData | app/src/main/java/com/example/android/apis/app/LoaderCustom.java:712-717 | the adapter holds exactly the given list in order, or nothing for null |
| LoaderThrottle.WithAppendedId | app/src/main/java/com/example/android/apis/app/LoaderThrottle.java:524 | appends one all-digit segment to the base URI and keeps the rest |
| LoaderThrottle.MatchUri | app/src/main/java/com/example/android/apis/app/LoaderThrottle.java:312-314 | MAIN iff the path is "main"; MAIN_ID iff it is "main/<digits>", with the id read from the digits; nothing else matches |
| LoaderThrottle.AppendedIdMatchesMainId | app/src/main/java/com/example/android/apis/app/LoaderThrottle.java:524 | the URI returned for a new row matches MAIN_ID with that row's id |
| LoaderThrottle.ParseId | app/src/main/java/com/example/android/apis/app/LoaderThrottle.java:607 | `ContentUris.parseId` of a MAIN_ID segment: the number the digits denote iff it is at most `Long.MAX_VALUE`, else NumberFormatException |
| LoaderThrottle.ParseIdOfAppendedId | app/src/main/java/com/example/android/apis/app/LoaderThrottle.java:524 | `parseId` reads back the id of every row URI `insert` returns |
| LoaderThrottle.GetType | app/src/main/java/com/example/android/apis/app/LoaderThrottle.java:449-458 | CONTENT_TYPE iff MAIN, CONTENT_ITEM_TYPE iff MAIN_ID, IllegalArgumentException iff unknown |
| LoaderThrottle.SelectedIds | app/src/main/java/com/example/android/apis/app/LoaderThrottle.java:593-617 | exactly the ids of the table's rows the selection picks |
| LoaderThrottle.Without | app/src/main/java/com/example/android/apis/app/LoaderThrottle.java:593-617 | the table minus the given rows, with the other rows unchanged |
| LoaderThrottle.WithData | app/src/main/java/com/example/android/apis/app/LoaderThrottle.java:669-690 | the given rows take the new data when the values name the data column; no other row changes |
| LoaderThrottle.DeleteRemovesExactlySelection | app/src/main/java/com/example/android/apis/app/LoaderThrottle.java:593-617 | after a delete nothing the selection picks remains, and remaining plus deleted rows make up the table |
| LoaderThrottle.Restrict | app/src/main/java/com/example/android/apis/app/LoaderThrottle.java:605-606 | a definition the contracts of `Delete` and `Update` use: the caller's where clause AND `_id = n` for MAIN_ID (`concatenateWhere`) |
| LoaderThrottle.InsertValues | app/src/main/java/com/example/android/apis/app/LoaderThrottle.java:509-517 | a copy of the caller's values with `data=""` added only when the key is absent |
| LoaderThrottle.IsEmpty | app/src/main/java/com/example/android/apis/app/LoaderThrottle.java:417 | a definition `Query`'s contract uses: `TextUtils.isEmpty`, true for null or "" |
| LoaderThrottle.AppendSelectionArgs | app/src/main/java/com/example/android/apis/app/LoaderThrottle.java:405-407 | the caller's arguments (none for null) followed by the extra ones |
| LoaderThrottle.SimpleProvider.constructor | app/src/main/java/com/example/android/apis/app/LoaderThrottle.java:310-314 | a provider over an empty table |
| LoaderThrottle.BoundRows | app/src/main/java/com/example/android/apis/app/LoaderThrottle.java:404-409 | the rows an SQLite query selects with its arguments bound by position: for MAIN_ID the builder's `_id=?` takes the first argument and the caller's selection the rest |
| LoaderThrottle.SimpleProvider.Query | app/src/main/java/com/example/android/apis/app/LoaderThrottle.java:391-429 | corrected binding: unknown URI fails with IllegalArgumentException; an empty sort order becomes DEFAULT_SORT_ORDER; for MAIN_ID the last path segment is bound to `_id=?`; the rows are those the caller's selection picks with the caller's arguments, restricted to the id for MAIN_ID |
| LoaderThrottle.QueryAsWritten | app/src/main/java/com/example/android/apis/app/LoaderThrottle.java:404-409 | as written: for MAIN_ID with caller arguments, `_id=?` is matched against the caller's first argument and the caller's selection gets the rest followed by the last path segment |
| LoaderThrottle.QueryAsWrittenAgreesWithoutArgs | app/src/main/java/com/example/android/apis/app/LoaderThrottle.java:404-409 | with no caller arguments the code as written selects the same rows as the corrected binding |
| LoaderThrottle.QueryAsWrittenSelectsAnotherRow | app/src/main/java/com/example/android/apis/app/LoaderThrottle.java:404-409 | as written, `query(main/5, "data != ?", ["7"])` over rows 5 and 7 returns row 7 |
| LoaderThrottle.QueryByIdSelectsAtMostThatRow | app/src/main/java/com/example/android/apis/app/LoaderThrottle.java:404-409 | with the corrected binding, a query on a row's URI selects at most that row |
| LoaderThrottle.SimpleProvider.Insert | app/src/main/java/com/example/android/apis/app/LoaderThrottle.java:501-532 | only MAIN is accepted; the URI with the new id appended is returned iff the id is positive, else SQLException; only then the table gains the row with the data value (or ""); the caller's values are not modified |
| LoaderThrottle.SimpleProvider.Delete | app/src/main/java/com/example/android/apis/app/LoaderThrottle.java:587-618 | removes exactly the selected rows (one id at most for MAIN_ID) and returns their number; unknown URI fails with IllegalArgumentException, a MAIN_ID id above `Long.MAX_VALUE` with NumberFormatException, and both leave the table |
| LoaderThrottle.SimpleProvider.Update | app/src/main/java/com/example/android/apis/app/LoaderThrottle.java:664-691 | updates exactly the selected rows and returns their number; unknown URI fails with IllegalArgumentException, a MAIN_ID id above `Long.MAX_VALUE` with NumberFormatException, and both leave the table |
| LoaderThrottle.DeleteByIdRemovesAtMostThatRow | app/src/main/java/com/example/android/apis/app/LoaderThrottle.java:600-611 | a delete on a row's URI selects at most that row, whatever the where clause |
| LoaderThrottle.PopulateText | app/src/main/java/com/example/android/apis/app/LoaderThrottle.java:866-869 | the i-th text is "Data " and the letter 'Z' - i |
| LoaderThrottle.PopulateData | app/src/main/java/com/example/android/apis/app/LoaderThrottle.java:866-882 | the first n texts of the populate task, in order |
| LoaderThrottle.PopulateTextsAreDistinct | app/src/main/java/com/example/android/apis/app/LoaderThrottle.java:866 | no text is inserted twice |
| LoaderThrottle.ContentValues.constructor | app/src/main/java/com/example/android/apis/app/LoaderThrottle.java:869 | values holding the given entries |
| LoaderThrottle.PopulateTask.constructor | app/src/main/java/com/example/android/apis/app/LoaderThrottle.java:861 | a new task is neither started nor cancelled |
| LoaderThrottle.PopulateTask.Cancel | app/src/main/java/com/example/android/apis/app/LoaderThrottle.java:890-893 | `cancel(false)` only raises the flag |
| LoaderThrottle.PopulateTask.Execute | app/src/main/java/com/example/android/apis/app/LoaderThrottle.java:886 | the task is started |
| LoaderThrottle.PopulateTask.InsertText | app/src/main/java/com/example/android/apis/app/LoaderThrottle.java:870-875 | one insert of the task: succeeds iff the database reports a positive id, and only then adds the text under that id |
| LoaderThrottle.PopulateTask.DoInBackground | app/src/main/java/com/example/android/apis/app/LoaderThrottle.java:866-882 | inserts "Data Z", "Data Y", … in order, at most 26, each with a positive id; stops at the first cancellation check that sees the flag, or ends with the SQLException of a failing insert (reported iff the insert failed); the table gains exactly those rows |
| LoaderThrottle.ThrottledLoaderListFragment.constructor | app/src/main/java/com/example/android/apis/app/LoaderThrottle.java:724 | no populate task at first |
| LoaderThrottle.ThrottledLoaderListFragment.OnOptionsItemSelected | app/src/main/java/com/example/android/apis/app/LoaderThrottle.java:833-920 | handled iff POPULATE_ID or CLEAR_ID; either cancels a running task; Populate starts a fresh one; Clear forgets it and empties the table; other items change nothing |
| FragmentDialog.GetInt | app/src/main/java/com/example/android/apis/app/FragmentDialog.java:95 | a definition the fragment and activity contracts use: `Bundle.getInt`, the stored value, 0 when the key is missing |
| FragmentDialog.Increment | app/src/main/java/com/example/android/apis/app/FragmentDialog.java:127 | Java's `++` on an int: +1, and wrap from the largest to the smallest value |
| FragmentDialog.NextLevel | app/src/main/java/com/example/android/apis/app/FragmentDialog.java:127-128 | from 0..7 the next level is k+1; from 8 up it is 1; from 0 up it is in 1..8; at the largest int it wraps to the smallest |
| FragmentDialog.LevelAfterInCycle | app/src/main/java/com/example/android/apis/app/FragmentDialog.java:127-128 | n presses from a level in 1..8 advance it n places round the cycle |
| FragmentDialog.LevelCycleHasPeriodEight | app/src/main/java/com/example/android/apis/app/FragmentDialog.java:127-128 | eight presses bring a level back to itself |
| FragmentDialog.LevelAfterPresses | app/src/main/java/com/example/android/apis/app/FragmentDialog.java:127-128 | from the initial 0, the k-th press shows level ((k-1) mod 8) + 1 |
| FragmentDialog.GetNameForNum | app/src/main/java/com/example/android/apis/app/FragmentDialog.java:154-175 | a definition: the description of each number 1..8, "STYLE_NORMAL" otherwise; its properties are the three lemmas below |
| FragmentDialog.NumForNameOfName | app/src/main/java/com/example/android/apis/app/FragmentDialog.java:154-175 | each description read back with `NumForName` (a proof aid with no counterpart in the sample) gives its number for 1..8 and 0 for every other number, so a description identifies its style and theme |
| FragmentDialog.NameIsStyleNormalOutsideRange | app/src/main/java/com/example/android/apis/app/FragmentDialog.java:154-175 | the description is "STYLE_NORMAL" iff the number is outside 1..8 |
| FragmentDialog.NamesAreDistinct | app/src/main/java/com/example/android/apis/app/FragmentDialog.java:156-172 | the eight descriptions are pairwise different |
| FragmentDialog.StyleFor | app/src/main/java/com/example/android/apis/app/FragmentDialog.java:222-249 | 1 and 6 give NO_TITLE, 2 and 7 give NO_FRAME, 3 gives NO_INPUT, every other number NORMAL |
| FragmentDialog.ThemeFor | app/src/main/java/com/example/android/apis/app/FragmentDialog.java:223-266 | theme 0 unless 4..8; 6 and 8 share Theme_Holo_Light; 4, 5 and 7 each have their own |
| FragmentDialog.StyleThemePairsAreDistinct | app/src/main/java/com/example/android/apis/app/FragmentDialog.java:222-266 | every level in 1..8 gets a different (style, theme) pair |
| FragmentDialog.MyDialogFragment.constructor | app/src/main/java/com/example/android/apis/app/FragmentDialog.java:195 | a fragment with no arguments |
| FragmentDialog.MyDialogFragment.NewInstance | app/src/main/java/com/example/android/apis/app/FragmentDialog.java:194-203 | a fresh fragment whose arguments hold exactly `num` under "num" |
| FragmentDialog.MyDialogFragment.OnCreate | app/src/main/java/com/example/android/apis/app/FragmentDialog.java:217-268 | `mNum` is read from "num", and the style and theme are those it selects |
| FragmentDialog.FragmentDialogActivity.constructor | app/src/main/java/com/example/android/apis/app/FragmentDialog.java:94-96 | the level is 0, or the saved "level" when there is a saved state |
| FragmentDialog.FragmentDialogActivity.OnSaveInstanceState | app/src/main/java/com/example/android/apis/app/FragmentDialog.java:111-114 | the saved state holds the level under "level" and keeps every other key |
| FragmentDialog.FragmentDialogActivity.ShowDialog | app/src/main/java/com/example/android/apis/app/FragmentDialog.java:126-143 | the level becomes `NextLevel` of the old one (in 1..8 from any non-negative level) and the new fragment carries it |
| FragmentDialog.SaveRestoreKeepsLevel | app/src/main/java/com/example/android/apis/app/FragmentDialog.java:94-114 | a recreated activity starts from the level saved by the old one |
| FragmentDialog.ShownFragmentReadsItsLevel | app/src/main/java/com/example/android/apis/app/FragmentDialog.java:126-143 | the fragment shown reads back the level as its num, and styles itself by it |
| Presentation.ActiveSurfacePaused | app/src/main/java/com/example/android/apis/app/PresentationWithMediaRouterActivity.java:279-300 | a definition `ContentsFor`'s contract uses: the paused state of the surface that plays the content |
| Presentation.TargetDisplay | app/src/main/java/com/example/android/apis/app/PresentationWithMediaRouterActivity.java:231-233 | the selected route's presentation display, none without a route |
| Presentation.NextPresentationDisplay | app/src/main/java/com/example/android/apis/app/PresentationWithMediaRouterActivity.java:229-259 | a presentation afterwards is on the target display; none without a target; a matching one is kept; a new one exists iff `show()` does not throw |
| Presentation.UpdateIsStable | app/src/main/java/com/example/android/apis/app/PresentationWithMediaRouterActivity.java:236-244 | updating again for the same target keeps the presentation |
| Presentation.ContentsFor | app/src/main/java/com/example/android/apis/app/PresentationWithMediaRouterActivity.java:276-301 | the main surface is visible iff there is no presentation and paused while there is one; the active surface is paused iff `mPaused`; the info names the display |
| Presentation.DemoPresentation.constructor | app/src/main/java/com/example/android/apis/app/PresentationWithMediaRouterActivity.java:401 | a presentation for a display, not showing |
| Presentation.DemoPresentation.Show | app/src/main/java/com/example/android/apis/app/PresentationWithMediaRouterActivity.java:249-254 | throws iff the display is invalid, and shows only when it does not |
| Presentation.DemoPresentation.Dismiss | app/src/main/java/com/example/android/apis/app/PresentationWithMediaRouterActivity.java:238 | the presentation no longer shows |
| Presentation.PresentationWithMediaRouterActivity.constructor | app/src/main/java/com/example/android/apis/app/PresentationWithMediaRouterActivity.java:127-137 | no presentation, not paused, not listening |
| Presentation.PresentationWithMediaRouterActivity.ShownDisplay | app/src/main/java/com/example/android/apis/app/PresentationWithMediaRouterActivity.java:244 | a display iff there is a presentation |
| Presentation.PresentationWithMediaRouterActivity.UpdateContents | app/src/main/java/com/example/android/apis/app/PresentationWithMediaRouterActivity.java:276-301 | the screen becomes `ContentsFor` the presentation and `mPaused` |
| Presentation.PresentationWithMediaRouterActivity.UpdatePresentation | app/src/main/java/com/example/android/apis/app/PresentationWithMediaRouterActivity.java:229-259 | the display follows `NextPresentationDisplay`; a matching presentation is kept; a mismatched one is dismissed; a new one is fresh and showing; the screen is updated |
| Presentation.PresentationWithMediaRouterActivity.OnResume | app/src/main/java/com/example/android/apis/app/PresentationWithMediaRouterActivity.java:127-137 | listening, `mPaused` cleared, presentation updated |
| Presentation.PresentationWithMediaRouterActivity.OnPause | app/src/main/java/com/example/android/apis/app/PresentationWithMediaRouterActivity.java:150-160 | not listening, `mPaused` set, active surface paused, presentation kept |
| Presentation.PresentationWithMediaRouterActivity.OnStop | app/src/main/java/com/example/android/apis/app/PresentationWithMediaRouterActivity.java:172-182 | any presentation is dismissed and cleared; the screen is not updated |
| Presentation.PresentationWithMediaRouterActivity.OnRouteChanged | app/src/main/java/com/example/android/apis/app/PresentationWithMediaRouterActivity.java:320-355 | every route callback updates the presentation for the new selection |
| Presentation.PresentationWithMediaRouterActivity.OnDismiss | app/src/main/java/com/example/android/apis/app/PresentationWithMediaRouterActivity.java:372-378 | clears the presentation and updates the screen only when the dismissed dialog is the current one |
| RedirectMain.StoredText | app/src/main/java/com/example/android/apis/app/RedirectMain.java:149 | the stored text iff "text" is a key |
| RedirectMain.ActionFor | app/src/main/java/com/example/android/apis/app/RedirectMain.java:110-131 | finish iff INIT_TEXT_REQUEST was cancelled; reload iff request 0 or 1 with another code; ignore otherwise |
| RedirectMain.ClearedTextIsGone | app/src/main/java/com/example/android/apis/app/RedirectMain.java:175-177 | after removing "text" nothing is stored, and every other key stays |
| RedirectMain.SharedPreferences.constructor | app/src/main/java/com/example/android/apis/app/RedirectMain.java:147 | a preferences file with the given entries |
| RedirectMain.SharedPreferences.Remove | app/src/main/java/com/example/android/apis/app/RedirectMain.java:176 | removes exactly the key |
| RedirectMain.RedirectMainActivity.constructor | app/src/main/java/com/example/android/apis/app/RedirectMain.java:60 | nothing loaded, shown, launched or finished yet |
| RedirectMain.RedirectMainActivity.LoadPrefs | app/src/main/java/com/example/android/apis/app/RedirectMain.java:142-157 | true iff "text" is stored; only then the shown text changes, to it |
| RedirectMain.RedirectMainActivity.OnCreate | app/src/main/java/com/example/android/apis/app/RedirectMain.java:60-80 | launches with INIT_TEXT_REQUEST iff no "text" is stored |
| RedirectMain.RedirectMainActivity.OnActivityResult | app/src/main/java/com/example/android/apis/app/RedirectMain.java:109-132 | finishes, reloads or changes nothing, as `ActionFor` decides; never launches |
| RedirectMain.RedirectMainActivity.OnClearClicked | app/src/main/java/com/example/android/apis/app/RedirectMain.java:173-178 | "text" is removed from the file and the activity finishes |
| RedirectMain.RedirectMainActivity.OnNewClicked | app/src/main/java/com/example/android/apis/app/RedirectMain.java:193-197 | launches with NEW_TEXT_REQUEST |
| RedirectMain.ClearThenRecreate | app/src/main/java/com/example/android/apis/app/RedirectMain.java:175-177 | after "Clear and exit", a new activity finds no text and launches the getter |
| ReceiveResult.ResultLine | app/src/main/java/com/example/android/apis/app/ReceiveResult.java:146-160 | a handled result's line ends with a line break |
| ReceiveResult.CancelledLine | app/src/main/java/com/example/android/apis/app/ReceiveResult.java:146-147 | a cancelled result adds exactly "(cancelled)\n" |
| ReceiveResult.OkayLine | app/src/main/java/com/example/android/apis/app/ReceiveResult.java:151-160 | any other result adds "(okay ", a decimal code reading back as the result code, ") ", the action (nothing for null data) and "\n" |
| ReceiveResult.ResultLineHasOneNewline | app/src/main/java/com/example/android/apis/app/ReceiveResult.java:160 | with a newline-free action, the line holds exactly one line break |
| ReceiveResult.Appended | app/src/main/java/com/example/android/apis/app/ReceiveResult.java:138 | a definition the log lemma and `OnActivityResult` use: the result's line for request code GET_CODE, nothing for any other |
| ReceiveResult.LogGrowsByOneLinePerHandledResult | app/src/main/java/com/example/android/apis/app/ReceiveResult.java:138-160 | over any series of results the old text is a prefix of the new one and one line is added per handled result |
| ReceiveResult.ReceiveResultActivity.constructor | app/src/main/java/com/example/android/apis/app/ReceiveResult.java:141 | the text starts as given |
| ReceiveResult.ReceiveResultActivity.OnActivityResult | app/src/main/java/com/example/android/apis/app/ReceiveResult.java:134-162 | the text gains exactly the result's line; results for other request codes leave it unchanged |
| Decimal.NatToString | app/src/main/java/com/example/android/apis/app/ReceiveResult.java:152 | the decimal digits of a number, a single digit exactly below 10 |
| Decimal.IntToString | app/src/main/java/com/example/android/apis/app/ReceiveResult.java:152 | `Integer.toString`: digits, after a minus sign for a negative number |
| Decimal.DigitsValueOfNatToString | app/src/main/java/com/example/android/apis/app/LoaderThrottle.java:524 | the digits `withAppendedId` writes read back as the id |
| Decimal.IntToStringHasNoNewline | app/src/main/java/com/example/android/apis/app/ReceiveResult.java:152 | a decimal number never contains a line break |
| Decimal.ParseInt | app/src/main/java/com/example/android/apis/app/ReceiveResult.java:152 | reads an optional minus sign followed by digits |
| Decimal.ParseIntOfIntToString | app/src/main/java/com/example/android/apis/app/ReceiveResult.java:152 | reading back `Integer.toString(i)` gives i for every integer |
| RotationAnimation.FullscreenFlags | app/src/main/java/com/example/android/apis/app/RotationAnimation.java:133-138 | on sets FLAG_FULLSCREEN, off clears it, every other bit is unchanged |
| RotationAnimation.FullscreenIdempotent | app/src/main/java/com/example/android/apis/app/RotationAnimation.java:133-138 | the same setting twice equals it once |
| RotationAnimation.FullscreenLastCallWins | app/src/main/java/com/example/android/apis/app/RotationAnimation.java:133-138 | only the last setting counts |
| RotationAnimation.AnimationFor | app/src/main/java/com/example/android/apis/app/RotationAnimation.java:106-117 | CROSSFADE iff crossfade, JUMPCUT iff jumpcut, ROTATE iff rotate or any other id |
| RotationAnimation.RotationAnimationActivity.constructor | app/src/main/java/com/example/android/apis/app/RotationAnimation.java:63-66 | the mode starts as ROTATE and is applied to the window |
| RotationAnimation.RotationAnimationActivity.SetFullscreen | app/src/main/java/com/example/android/apis/app/RotationAnimation.java:130-139 | only the flags change, to `FullscreenFlags` |
| RotationAnimation.RotationAnimationActivity.SetRotationAnimation | app/src/main/java/com/example/android/apis/app/RotationAnimation.java:147-152 | only the window's rotation animation changes |
| RotationAnimation.RotationAnimationActivity.OnCheckedChanged | app/src/main/java/com/example/android/apis/app/RotationAnimation.java:105-118 | the mode becomes `AnimationFor` the id and is applied |
| AlertDialogSamples.DialogId | app/src/main/java/com/example/android/apis/app/AlertDialogSamples.java:68-81 | a definition `OnCreateDialogOfDialogId` uses: the DIALOG_* constant of each dialog |
| AlertDialogSamples.OnCreateDialog | app/src/main/java/com/example/android/apis/app/AlertDialogSamples.java:104-312 | null iff the id is not a DIALOG_* constant; otherwise the dialog with that id |
| AlertDialogSamples.OnCreateDialogOfDialogId | app/src/main/java/com/example/android/apis/app/AlertDialogSamples.java:104-312 | every dialog is built from its own id |
| AlertDialogSamples.InRun | app/src/main/java/com/example/android/apis/app/AlertDialogSamples.java:474-478 | a definition the progress contracts use as their invariant: the counter is in 0..100 and equals the bar |
| AlertDialogSamples.ClampProgress | app/src/main/java/com/example/android/apis/app/AlertDialogSamples.java:478 | the bar's value stays within 0..max and is exact inside it |
| AlertDialogSamples.PressProgressButton | app/src/main/java/com/example/android/apis/app/AlertDialogSamples.java:370-373 | the dialog shows, counter and bar are 0, and one message is queued |
| AlertDialogSamples.Handle | app/src/main/java/com/example/android/apis/app/AlertDialogSamples.java:472-481 | below MAX_PROGRESS, counter +1 and one message rescheduled; at or above, dismiss and schedule nothing; a run stays a run |
| AlertDialogSamples.DrainEndsAtMax | app/src/main/java/com/example/android/apis/app/AlertDialogSamples.java:474-479 | a run ends with counter and bar at 100, dismissed, queue empty, after (100 - counter) + queued messages |
| AlertDialogSamples.StepsKeepInRun | app/src/main/java/com/example/android/apis/app/AlertDialogSamples.java:474-478 | the counter never passes MAX_PROGRESS and the bar stays equal to it |
| AlertDialogSamples.PressThenDrain | app/src/main/java/com/example/android/apis/app/AlertDialogSamples.java:472-481 | a press followed by the whole run ends at 100 and dismissed |
| AlertDialogSamples.ProgressDialog.constructor | app/src/main/java/com/example/android/apis/app/AlertDialogSamples.java:166-181 | the dialog's maximum is MAX_PROGRESS, progress 0 |
| AlertDialogSamples.ProgressDialog.Show | app/src/main/java/com/example/android/apis/app/AlertDialogSamples.java:370 | the dialog shows |
| AlertDialogSamples.ProgressDialog.Dismiss | app/src/main/java/com/example/android/apis/app/AlertDialogSamples.java:475 | the dialog no longer shows |
| AlertDialogSamples.ProgressDialog.SetProgress | app/src/main/java/com/example/android/apis/app/AlertDialogSamples.java:372 | the bar takes the value clamped to 0..max |
| AlertDialogSamples.ProgressDialog.IncrementProgressBy | app/src/main/java/com/example/android/apis/app/AlertDialogSamples.java:478 | the bar moves by the difference, clamped |
| AlertDialogSamples.AlertDialogSamplesActivity.constructor | app/src/main/java/com/example/android/apis/app/AlertDialogSamples.java:88 | counter 0, no dialog, no message |
| AlertDialogSamples.AlertDialogSamplesActivity.ProgressButton | app/src/main/java/com/example/android/apis/app/AlertDialogSamples.java:366-375 | the state becomes `PressProgressButton`; the dialog is built only the first time |
| AlertDialogSamples.AlertDialogSamplesActivity.HandleMessage | app/src/main/java/com/example/android/apis/app/AlertDialogSamples.java:472-481 | the state becomes `Handle` of the old one |
| AlertDialogSamples.AlertDialogSamplesActivity.RunMessageQueue | app/src/main/java/com/example/android/apis/app/AlertDialogSamples.java:472-481 | delivering every message leaves the state `Drain` says, after `Handled` messages |
| AlertDialogSamples.ProgressRun | app/src/main/java/com/example/android/apis/app/AlertDialogSamples.java:472-481 | press then run: counter and bar at 100, dismissed, queue empty, 101 messages plus those already queued |

## Left out

- I/O and the UI: views, layouts, menus, toasts, logging, `notifyChange`, projection maps, cursors and the 2000 ms loader throttle.
- SQLite and SQL text. The table is a map from id to text, and a where clause with its arguments is a predicate on rows. The SQL engine's row id is a parameter.
- Concurrency. `AsyncTask`, the loader's background thread and `Thread.sleep` run as sequential steps. Cancellation is a flag read at each check.
- The framework's own loader bookkeeping beyond started, reset and content changed: load scheduling, `forceLoad` internals, and client callbacks (`onLoadFinished`, `onLoaderReset`). Only their observable effects are recorded (see the field table above).
- `setData`'s callers `onLoadFinished` and `onLoaderReset`: they only pass the result or null to `AppListAdapter.SetData`.
- The dialog builders of `AlertDialogSamples` other than the progress dialog, and the progress dialog's appearance. Only which dialog is built is modelled.
- The media router, displays and `GLSurfaceView`. The route is a value, and a surface is a visible flag plus a paused flag.
- The SharedPreferences storage, the Editable buffer and `Bundle`. They are a map, a string and a map of ints.
- LoaderCustom.Compare: `Collator` is locale-dependent. The model orders labels by UTF-16 code units instead, which satisfies the same contract: reflexive, antisymmetric and transitive.
- LoaderCustom.AlphaCompare: an entry whose label is still null compares as "" (in Java `Collator.compare` would throw). `loadInBackground` only sorts entries whose label is loaded.
- LoaderCustom.SortByLabel: this is a stable insertion sort standing in for `Collections.sort`. It is specified by its result (sorted, same entries), not by TimSort's steps.
- LoaderCustom.AppListLoader.LoadInBackground: the label is loaded with `File.exists` answered by a fixed set of present APKs; icons are not loaded here, as in the source.
- LoaderCustom.AppListLoader.DeliverResult: models the corrected `deliverResult` (see Findings). The code as written is `DeliverAsWritten`.
- LoaderCustom.AppListLoader.OnStartLoading: redelivers the cached list through the corrected delivery, so it promises that `released` is unchanged. As written (LoaderCustom.java:576 calling 534-548), `deliverResult(mApps)` also releases the list it has just redelivered; `AsWrittenReleasesRedeliveredList` states that effect.
- LoaderCustom.AppListLoader.StartLoading: the same as `OnStartLoading`, whose `released` promise it inherits; the code as written would release the redelivered cached list.
- LoaderThrottle.SimpleProvider.Query: returns the query plan (selection arguments, sort order, rows) rather than a cursor. The projection map is not modelled.
- LoaderThrottle.SimpleProvider.Query: models the corrected binding of the URI's id to `_id=?` (see Findings); the code as written is `QueryAsWritten`. SQLite's other numeric text forms for `_id=?` (signs, spaces, a decimal point) and its "too many bind arguments" error are not modelled: an id argument matches only a plain digit string.
- LoaderThrottle.SimpleProvider.Update: `SQLiteDatabase.update` throws IllegalArgumentException for empty values, SQLite applies a key naming another real column such as `_id`, and it rejects a key naming no column. `WithData` changes only the data column and counts the rows in all three cases.
- LoaderCustom.UpdateFrom: only the three watched parts (locale, UI mode, screen layout) are modelled, each compared as a whole; the sub-fields of `uiMode` and `screenLayout` and the other parts of a `Configuration` are not.
- LoaderThrottle.PopulateTask.InsertText: the row id the database returns is a parameter and is not required to be new; SQLite never returns the id of an existing row, but the model would overwrite such a row. The same holds for `Populated` and `SimpleProvider.Insert`.
- LoaderThrottle.PopulateTask.DoInBackground: the 32-bit `char` decrement and loop bound are written as an index 0..25. The populate data is "Data " plus a single letter.
- Decimal.ParseInt: no 32- or 64-bit overflow check; it is used only to read back `Integer.toString`.
- Presentation.Display: displays are compared by value (id and name). The source compares `Display` references (PresentationWithMediaRouterActivity.java:236); the model treats two equal display values as the same display.
- ReceiveResult.Intent: the result intent's action is a non-null string. In the source, a null action would make `append` throw (ReceiveResult.java:156); that path is not modelled.
- Presentation.PresentationWithMediaRouterActivity.OnStop: the source does not call `updateContents` here. The screen predicate `ContentsShown` may therefore not hold after `OnStop` until the next update; this is modelled as written.

## Findings

| source | as written | input that shows it | evidently intended | confidence | as-written member | corrected member |
|---|---|---|---|---|---|---|
| app/src/main/java/com/example/android/apis/app/LoaderCustom.java:534-548 | `deliverResult` releases `oldApps` whenever it is non-null | `onStartLoading` with a cached list: `deliverResult(mApps)` keeps and forwards that list, then releases it as `oldApps` | release the old data only when it is a different object from the new result (the comment there says the old result "is no longer in use") | medium, not executed | LoaderCustom.AsWrittenReleasesRedeliveredList | LoaderCustom.Deliver |
| app/src/main/java/com/example/android/apis/app/LoaderCustom.java:526-535 | when the loader is reset, the late result is released but execution falls through and stores it in `mApps` | a result delivered after `reset()` with a non-null list: it is released and then kept as the cached list | return after releasing (the comment says the result is not needed), leaving the cache empty | medium, not executed | LoaderCustom.AsWrittenKeepsReleasedLateResult | LoaderCustom.Deliver |
| app/src/main/java/com/example/android/apis/app/LoaderThrottle.java:404-409 | for MAIN_ID, `_id=?` is the first placeholder of the where clause, but the URI's last segment is appended after the caller's arguments | `query(.../main/5, "data != ?", ["7"])` over rows 5 and 7: `_id` is bound to "7" and the caller's `?` to "5", so row 7 is returned | bind the URI's id to `_id=?`, that is, put the last segment before the caller's arguments | high, not executed | LoaderThrottle.QueryAsWritten | LoaderThrottle.SimpleProvider.Query |

In this sample `onReleaseResources` is empty (LoaderCustom.java:667-670), so neither `deliverResult` defect changes what the app does. They matter only when the result holds resources that releasing frees, such as a `Cursor`.

The `query` defect shows only when a caller passes both a MAIN_ID URI and selection arguments (`QueryAsWrittenAgreesWithoutArgs`); `QueryAsWrittenSelectsAnotherRow` gives the input.
