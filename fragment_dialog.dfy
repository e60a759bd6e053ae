/**
 * FragmentDialog: each press of "show" bumps a stack level that cycles through 1..8 and opens a
 * dialog fragment whose style and theme are chosen by that level.
 */
module FragmentDialog {
  import opened Common

  /** Java's 32-bit `int`. */
  newtype int32 = x: int | -0x8000_0000 <= x < 0x8000_0000

  const INT32_MAX: int32 := 0x7fff_ffff
  const INT32_MIN: int32 := -0x8000_0000

  /** `DialogFragment.STYLE_*`. */
  datatype Style = StyleNormal | StyleNoTitle | StyleNoFrame | StyleNoInput

  /** The theme resource passed to `setStyle`; `DefaultTheme` is the value 0 (let the style choose). */
  datatype Theme = DefaultTheme | ThemeHolo | ThemeHoloLightDialog | ThemeHoloLight | ThemeHoloLightPanel

  /** An `android.os.Bundle` holding only int values; `getInt` of a missing key is 0. */
  type Bundle = map<string, int32>

  function GetInt(b: Bundle, key: string): int32 {
    if key in b then b[key] else 0
  }

  /** Java's `x++` on an int: wraps from the largest value to the smallest. */
  function Increment(x: int32): (r: int32)
    ensures x < INT32_MAX ==> r as int == x as int + 1
    ensures x == INT32_MAX ==> r == INT32_MIN
  {
    if x == INT32_MAX then INT32_MIN else x + 1
  }

  /** The level after one press: incremented as a Java int, and back to 1 once it passes 8. */
  function NextLevel(level: int32): (r: int32)
    ensures 0 <= level < 8 ==> r == level + 1
    ensures 8 <= level < INT32_MAX ==> r == 1
    ensures 0 <= level < INT32_MAX ==> 1 <= r <= 8
    ensures level == INT32_MAX ==> r == INT32_MIN
  {
    var bumped := Increment(level);
    if bumped > 8 then 1 else bumped
  }

  /** The level after `n` presses of "show". */
  function LevelAfter(level: int32, n: nat): int32
    decreases n
  {
    if n == 0 then level else LevelAfter(NextLevel(level), n - 1)
  }

  /** Within the cycle, n presses from `level` advance it n places round 1..8. */
  lemma {:induction false} LevelAfterInCycle(level: int32, n: nat)
    requires 1 <= level <= 8
    ensures LevelAfter(level, n) as int == (level as int - 1 + n) % 8 + 1
    decreases n
  {
    if n > 0 {
      LevelAfterInCycle(NextLevel(level), n - 1);
      if level == 8 {
        assert (level as int - 1 + n) % 8 == (n - 1) % 8 by {
          assert level as int - 1 + n == (n - 1) + 8;
        }
      }
    }
  }

  /** Eight presses bring any level in 1..8 back to itself. */
  lemma LevelCycleHasPeriodEight(level: int32)
    requires 1 <= level <= 8
    ensures LevelAfter(level, 8) == level
  {
    LevelAfterInCycle(level, 8);
  }

  /** Starting from the initial level 0, the k-th press (k >= 1) shows level ((k - 1) mod 8) + 1. */
  lemma LevelAfterPresses(n: nat)
    requires n >= 1
    ensures LevelAfter(0, n) as int == (n - 1) % 8 + 1
  {
    LevelAfterInCycle(1, n - 1);
  }

  /** `getNameForNum`: a description of each of the eight styles, and "STYLE_NORMAL" for any other number. */
  function GetNameForNum(num: int32): string {
    match num
    case 1 => "STYLE_NO_TITLE"
    case 2 => "STYLE_NO_FRAME"
    case 3 => "STYLE_NO_INPUT (this window can't receive input, so " + "you will need to press the bottom show button)"
    case 4 => "STYLE_NORMAL with dark fullscreen theme"
    case 5 => "STYLE_NORMAL with light theme"
    case 6 => "STYLE_NO_TITLE with light theme"
    case 7 => "STYLE_NO_FRAME with light theme"
    case 8 => "STYLE_NORMAL with light fullscreen theme"
    case _ => "STYLE_NORMAL"
  }

  /**
   * A proof aid with no counterpart in the sample: reads the number back from its description,
   * so that the description is shown to be one-to-one. The length tells the descriptions apart
   * except for two pairs (1 and 2, 6 and 7), and the tenth character separates each pair.
   */
  function NumForName(name: string): (num: int32)
    ensures 0 <= num <= 8
  {
    if |name| == 14 then (if name[9] == 'T' then 1 else 2)
    else if |name| == 98 then 3
    else if |name| == 39 then 4
    else if |name| == 29 then 5
    else if |name| == 31 then (if name[9] == 'T' then 6 else 7)
    else if |name| == 40 then 8
    else 0
  }

  /** Each of the eight descriptions identifies its number; every other number reads back as 0. */
  lemma NumForNameOfName(num: int32)
    ensures NumForName(GetNameForNum(num)) == if 1 <= num <= 8 then num else 0
  {
  }

  /** "STYLE_NORMAL" is the description of exactly the numbers outside 1..8. */
  lemma NameIsStyleNormalOutsideRange(num: int32)
    ensures GetNameForNum(num) == "STYLE_NORMAL" <==> !(1 <= num <= 8)
  {
    NumForNameOfName(num);
  }

  /** The eight descriptions are pairwise different. */
  lemma NamesAreDistinct(a: int32, b: int32)
    requires 1 <= a <= 8 && 1 <= b <= 8 && a != b
    ensures GetNameForNum(a) != GetNameForNum(b)
  {
    NumForNameOfName(a);
    NumForNameOfName(b);
  }

  /** The first `switch` of `MyDialogFragment.onCreate`. */
  function StyleFor(num: int32): (style: Style)
    ensures style == StyleNoTitle <==> num == 1 || num == 6
    ensures style == StyleNoFrame <==> num == 2 || num == 7
    ensures style == StyleNoInput <==> num == 3
    ensures style == StyleNormal <==> !(num in {1, 2, 3, 6, 7})
  {
    match num
    case 1 => StyleNoTitle
    case 2 => StyleNoFrame
    case 3 => StyleNoInput
    case 4 => StyleNormal
    case 5 => StyleNormal
    case 6 => StyleNoTitle
    case 7 => StyleNoFrame
    case 8 => StyleNormal
    case _ => StyleNormal
  }

  /** The second `switch` of `MyDialogFragment.onCreate`. */
  function ThemeFor(num: int32): (theme: Theme)
    ensures theme == DefaultTheme <==> !(4 <= num <= 8)
    ensures theme == ThemeHoloLight <==> num == 6 || num == 8
    ensures theme == ThemeHolo <==> num == 4
    ensures theme == ThemeHoloLightDialog <==> num == 5
    ensures theme == ThemeHoloLightPanel <==> num == 7
  {
    match num
    case 4 => ThemeHolo
    case 5 => ThemeHoloLightDialog
    case 6 => ThemeHoloLight
    case 7 => ThemeHoloLightPanel
    case 8 => ThemeHoloLight
    case _ => DefaultTheme
  }

  /** Each level in 1..8 gets a different (style, theme) pair. */
  lemma StyleThemePairsAreDistinct(a: int32, b: int32)
    requires 1 <= a <= 8 && 1 <= b <= 8 && a != b
    ensures (StyleFor(a), ThemeFor(a)) != (StyleFor(b), ThemeFor(b))
  {
  }

  class MyDialogFragment {
    /** The fragment's arguments bundle. */
    var arguments: Bundle
    /** `mNum`, read from the arguments in `onCreate`. */
    var num: int32
    /** What `onCreate` passed to `setStyle`. */
    var style: Style
    var theme: Theme

    constructor ()
      ensures arguments == map[] && num == 0 && style == StyleNormal && theme == DefaultTheme
    {
      arguments := map[];
      num := 0;
      style := StyleNormal;
      theme := DefaultTheme;
    }

    /** `newInstance`: a fresh fragment whose arguments hold `num` under "num". */
    static method NewInstance(num: int32) returns (f: MyDialogFragment)
      ensures fresh(f)
      ensures f.arguments == map["num" := num]
    {
      f := new MyDialogFragment();
      var args: Bundle := map[];
      args := args["num" := num];
      f.arguments := args;
    }

    /** `onCreate`: read "num" back and pick the style and theme it selects. */
    method OnCreate()
      modifies this
      ensures arguments == old(arguments)
      ensures num == GetInt(arguments, "num")
      ensures style == StyleFor(num) && theme == ThemeFor(num)
    {
      num := GetInt(arguments, "num");
      style := StyleFor(num);
      theme := ThemeFor(num);
    }
  }

  class FragmentDialogActivity {
    /** `mStackLevel`. */
    var stackLevel: int32

    /** Field initialiser plus `onCreate`: restore "level" from a saved state, if any. */
    constructor (savedInstanceState: Option<Bundle>)
      ensures stackLevel == if savedInstanceState.None? then 0 else GetInt(savedInstanceState.value, "level")
    {
      stackLevel := 0;
      if savedInstanceState.Some? {
        stackLevel := GetInt(savedInstanceState.value, "level");
      }
    }

    /** `onSaveInstanceState`: the outgoing state with the level stored under "level". */
    method OnSaveInstanceState(outState: Bundle) returns (saved: Bundle)
      ensures GetInt(saved, "level") == stackLevel
      ensures forall k :: k in outState && k != "level" ==> k in saved && saved[k] == outState[k]
    {
      saved := outState["level" := stackLevel];
    }

    /** `showDialog`: bump the level and create the fragment for it. */
    method ShowDialog() returns (f: MyDialogFragment)
      modifies this
      ensures stackLevel == NextLevel(old(stackLevel))
      ensures 0 <= old(stackLevel) < INT32_MAX ==> 1 <= stackLevel <= 8
      ensures fresh(f) && f.arguments == map["num" := stackLevel]
    {
      stackLevel := Increment(stackLevel);
      if stackLevel > 8 {
        stackLevel := 1;
      }
      f := MyDialogFragment.NewInstance(stackLevel);
    }
  }

  /** A level saved by one activity instance is the level its recreation starts from. */
  method SaveRestoreKeepsLevel(a: FragmentDialogActivity, outState: Bundle) returns (b: FragmentDialogActivity)
    ensures fresh(b) && b.stackLevel == a.stackLevel
  {
    var saved := a.OnSaveInstanceState(outState);
    b := new FragmentDialogActivity(Some(saved));
  }

  /** The fragment shown for a level reads that same level back as its `num`. */
  method ShownFragmentReadsItsLevel(a: FragmentDialogActivity) returns (f: MyDialogFragment)
    modifies a
    ensures fresh(f) && f.num == a.stackLevel
    ensures f.style == StyleFor(a.stackLevel) && f.theme == ThemeFor(a.stackLevel)
  {
    f := a.ShowDialog();
    f.OnCreate();
  }
}
