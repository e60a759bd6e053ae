/**
 * RotationAnimation: an activity that toggles the window's FLAG_FULLSCREEN bit from a check box
 * and picks the window's rotation animation from a radio group.
 */
module RotationAnimation {

  /** `WindowManager.LayoutParams.FLAG_FULLSCREEN`. */
  const FLAG_FULLSCREEN: bv32 := 0x0000_0400

  /** `WindowManager.LayoutParams.ROTATION_ANIMATION_*`. */
  const ROTATION_ANIMATION_ROTATE: int := 0
  const ROTATION_ANIMATION_CROSSFADE: int := 1
  const ROTATION_ANIMATION_JUMPCUT: int := 2

  /** The two window attributes this activity touches; `flags` is the Java int as a bit pattern. */
  datatype LayoutParams = LayoutParams(flags: bv32, rotationAnimation: int)

  /** The id the radio group reports: one of its three buttons, or anything else (such as -1 on clearCheck). */
  datatype CheckedId = RotateButton | CrossfadeButton | JumpcutButton | OtherId(id: int)

  /** The window flags after `setFullscreen(on)`: `flags | FLAG_FULLSCREEN` or `flags & ~FLAG_FULLSCREEN`. */
  function FullscreenFlags(flags: bv32, on: bool): (r: bv32)
    ensures on ==> r & FLAG_FULLSCREEN == FLAG_FULLSCREEN
    ensures !on ==> r & FLAG_FULLSCREEN == 0
    ensures r & !FLAG_FULLSCREEN == flags & !FLAG_FULLSCREEN
  {
    if on then flags | FLAG_FULLSCREEN else flags & !FLAG_FULLSCREEN
  }

  /** Setting the same fullscreen state twice is the same as setting it once. */
  lemma FullscreenIdempotent(flags: bv32, on: bool)
    ensures FullscreenFlags(FullscreenFlags(flags, on), on) == FullscreenFlags(flags, on)
  {
  }

  /** The last call wins: whatever came before, only the most recent setting of the bit counts. */
  lemma FullscreenLastCallWins(flags: bv32, first: bool, second: bool)
    ensures FullscreenFlags(FullscreenFlags(flags, first), second) == FullscreenFlags(flags, second)
  {
    if first && !second {
      SetThenClear(flags);
    } else if !first && second {
      ClearThenSet(flags);
    }
  }

  lemma SetThenClear(flags: bv32)
    ensures (flags | FLAG_FULLSCREEN) & !FLAG_FULLSCREEN == flags & !FLAG_FULLSCREEN
  {
  }

  lemma ClearThenSet(flags: bv32)
    ensures (flags & !FLAG_FULLSCREEN) | FLAG_FULLSCREEN == flags | FLAG_FULLSCREEN
  {
  }

  /** The radio group's mapping; the `default` label shares the rotate case. */
  function AnimationFor(checked: CheckedId): (mode: int)
    ensures mode == ROTATION_ANIMATION_CROSSFADE <==> checked == CrossfadeButton
    ensures mode == ROTATION_ANIMATION_JUMPCUT <==> checked == JumpcutButton
    ensures mode == ROTATION_ANIMATION_ROTATE <==> checked.RotateButton? || checked.OtherId?
  {
    match checked
    case CrossfadeButton => ROTATION_ANIMATION_CROSSFADE
    case JumpcutButton => ROTATION_ANIMATION_JUMPCUT
    case _ => ROTATION_ANIMATION_ROTATE
  }

  class RotationAnimationActivity {
    /** `mRotationAnimation`. */
    var rotationAnimation: int
    /** The window's attributes, as `getWindow().getAttributes()` would return them. */
    var window: LayoutParams

    /** Field initialiser plus `onCreate`, which applies the initial ROTATE mode to the window. */
    constructor (initial: LayoutParams)
      ensures rotationAnimation == ROTATION_ANIMATION_ROTATE
      ensures window == initial.(rotationAnimation := ROTATION_ANIMATION_ROTATE)
    {
      rotationAnimation := ROTATION_ANIMATION_ROTATE;
      window := initial;
      new;
      SetRotationAnimation(rotationAnimation);
    }

    /** `setFullscreen`: set or clear FLAG_FULLSCREEN, leaving every other attribute alone. */
    method SetFullscreen(on: bool)
      modifies this
      ensures window == old(window).(flags := FullscreenFlags(old(window).flags, on))
      ensures rotationAnimation == old(rotationAnimation)
    {
      var winParams := window;
      if on {
        winParams := winParams.(flags := winParams.flags | FLAG_FULLSCREEN);
      } else {
        winParams := winParams.(flags := winParams.flags & !FLAG_FULLSCREEN);
      }
      window := winParams;
    }

    /** `setRotationAnimation`: change only the `rotationAnimation` attribute. */
    method SetRotationAnimation(mode: int)
      modifies this
      ensures window == old(window).(rotationAnimation := mode)
      ensures rotationAnimation == old(rotationAnimation)
    {
      var winParams := window;
      winParams := winParams.(rotationAnimation := mode);
      window := winParams;
    }

    /** The radio group's `onCheckedChanged`: remember the chosen mode and apply it. */
    method OnCheckedChanged(checked: CheckedId)
      modifies this
      ensures rotationAnimation == AnimationFor(checked)
      ensures window == old(window).(rotationAnimation := AnimationFor(checked))
    {
      match checked {
        case CrossfadeButton => rotationAnimation := ROTATION_ANIMATION_CROSSFADE;
        case JumpcutButton => rotationAnimation := ROTATION_ANIMATION_JUMPCUT;
        case _ => rotationAnimation := ROTATION_ANIMATION_ROTATE;
      }
      SetRotationAnimation(rotationAnimation);
    }
  }
}
