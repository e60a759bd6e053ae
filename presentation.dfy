/**
 * PresentationWithMediaRouterActivity: keeps a presentation on the presentation display of the
 * selected live-video route, if there is one, and plays the content either there or in the
 * activity's own surface, paused while the activity is paused.
 */
module Presentation {
  import opened Common

  /** A display, identified by its id; `name` is what the info text shows. */
  datatype Display = Display(id: int, name: string)

  /** The selected live-video route, as far as this activity asks about it. */
  datatype RouteInfo = RouteInfo(presentationDisplay: Option<Display>)

  /** The info text: which display the content is playing on. */
  datatype Info = InitialInfo | NowPlayingLocally(local: string) | NowPlayingRemotely(remote: string)

  /**
   * What the user sees: whether the activity's surface is visible and paused, whether the
   * presentation's surface (when there is a presentation) is paused, and the info text.
   */
  datatype Screen = Screen(mainVisible: bool, mainPaused: bool, presentationPaused: Option<bool>, info: Info)

  /** The surface the content is playing on is the presentation's when there is one. */
  function ActiveSurfacePaused(s: Screen): bool {
    if s.presentationPaused.Some? then s.presentationPaused.value else s.mainPaused
  }

  /** `route != null ? route.getPresentationDisplay() : null`. */
  function TargetDisplay(route: Option<RouteInfo>): (d: Option<Display>)
    ensures d.Some? ==> route.Some? && route.value.presentationDisplay == d
    ensures route.Some? ==> d == route.value.presentationDisplay
  {
    if route.Some? then route.value.presentationDisplay else None
  }

  /**
   * The display of the presentation after `updatePresentation`, given the display of the current
   * one (if any), the target display and whether `show()` throws InvalidDisplayException.
   */
  function NextPresentationDisplay(current: Option<Display>, target: Option<Display>, showFails: bool): (r: Option<Display>)
    ensures r.Some? ==> r == target
    ensures target.None? ==> r.None?
    ensures current.Some? && current == target ==> r == current
    ensures current != target && target.Some? ==> (r.Some? <==> !showFails)
  {
    var kept := if current.Some? && current != target then None else current;
    if kept.None? && target.Some? then
      if showFails then None else target
    else kept
  }

  /** Once a presentation is up on the target display, updating again for the same target keeps it. */
  lemma UpdateIsStable(current: Option<Display>, target: Option<Display>, first: bool, second: bool)
    requires NextPresentationDisplay(current, target, first).Some?
    ensures NextPresentationDisplay(NextPresentationDisplay(current, target, first), target, second)
            == NextPresentationDisplay(current, target, first)
  {
  }

  /** `updateContents`: what the user sees for a given presentation display and pause state. */
  function ContentsFor(shown: Option<Display>, paused: bool, defaultDisplayName: string): (s: Screen)
    ensures s.mainVisible <==> shown.None?
    ensures shown.Some? ==> s.mainPaused && s.presentationPaused.Some?
    ensures shown.None? ==> s.presentationPaused.None?
    ensures ActiveSurfacePaused(s) == paused
    ensures s.info == if shown.Some? then NowPlayingRemotely(shown.value.name) else NowPlayingLocally(defaultDisplayName)
  {
    if shown.Some? then Screen(false, true, Some(paused), NowPlayingRemotely(shown.value.name))
    else Screen(true, paused, None, NowPlayingLocally(defaultDisplayName))
  }

  class DemoPresentation {
    const display: Display
    var showing: bool
    /** Whether the presentation's own surface view is paused. */
    var surfacePaused: bool

    constructor (display: Display)
      ensures this.display == display && !showing && !surfacePaused
    {
      this.display := display;
      showing := false;
      surfacePaused := false;
    }

    /** `show()`; it throws InvalidDisplayException when the display went away, and then shows nothing. */
    method Show(fails: bool) returns (thrown: bool)
      modifies this
      ensures thrown == fails
      ensures showing == (old(showing) || !fails) && surfacePaused == old(surfacePaused)
    {
      if fails {
        return true;
      }
      showing := true;
      return false;
    }

    method Dismiss()
      modifies this
      ensures !showing && surfacePaused == old(surfacePaused)
    {
      showing := false;
    }
  }

  class PresentationWithMediaRouterActivity {
    /** The default display's name, shown when playing locally. */
    const defaultDisplayName: string
    /** `mPresentation`. */
    var presentation: DemoPresentation?
    /** `mPaused`. */
    var paused: bool
    /** Whether the media-router callback is registered. */
    var listening: bool
    /** The activity's own surface view. */
    var mainVisible: bool
    var mainPaused: bool
    /** `mInfoTextView`'s text. */
    var info: Info

    constructor (defaultDisplayName: string)
      ensures this.defaultDisplayName == defaultDisplayName
      ensures presentation == null && !paused && !listening && mainVisible && !mainPaused && info == InitialInfo
    {
      this.defaultDisplayName := defaultDisplayName;
      presentation := null;
      paused := false;
      listening := false;
      mainVisible := true;
      mainPaused := false;
      info := InitialInfo;
    }

    function ShownDisplay(): (d: Option<Display>)
      reads this
      ensures d.None? <==> presentation == null
    {
      if presentation == null then None else Some(presentation.display)
    }

    function CurrentScreen(): Screen
      reads this, presentation
    {
      Screen(mainVisible, mainPaused, if presentation == null then None else Some(presentation.surfacePaused), info)
    }

    /** The screen agrees with `mPresentation` and `mPaused`, as `updateContents` leaves it. */
    predicate ContentsShown()
      reads this, presentation
    {
      CurrentScreen() == ContentsFor(ShownDisplay(), paused, defaultDisplayName)
    }

    /** `updateContents`. */
    method UpdateContents()
      modifies this, presentation
      ensures presentation == old(presentation) && paused == old(paused) && listening == old(listening)
      ensures presentation != null ==> presentation.showing == old(presentation.showing)
      ensures ContentsShown()
    {
      if presentation != null {
        info := NowPlayingRemotely(presentation.display.name);
        mainVisible := false;
        mainPaused := true;
        if paused {
          presentation.surfacePaused := true;
        } else {
          presentation.surfacePaused := false;
        }
      } else {
        info := NowPlayingLocally(defaultDisplayName);
        mainVisible := true;
        if paused {
          mainPaused := true;
        } else {
          mainPaused := false;
        }
      }
    }

    /**
     * `updatePresentation` for the currently selected route: dismiss a presentation whose display
     * is no longer the route's, show a new one if there is a display and none is up (it stays null
     * when `show()` throws), then update the contents.
     */
    method UpdatePresentation(route: Option<RouteInfo>, showFails: bool)
      modifies this, presentation
      ensures ShownDisplay() == NextPresentationDisplay(old(ShownDisplay()), TargetDisplay(route), showFails)
      ensures old(presentation) != null && Some(old(presentation).display) == TargetDisplay(route) ==>
                presentation == old(presentation) && presentation.showing == old(presentation.showing)
      ensures old(presentation) != null && Some(old(presentation).display) != TargetDisplay(route) ==>
                !old(presentation).showing
      ensures presentation != null && presentation != old(presentation) ==> fresh(presentation) && presentation.showing
      ensures paused == old(paused) && listening == old(listening)
      ensures ContentsShown()
    {
      var presentationDisplay := TargetDisplay(route);
      if presentation != null && Some(presentation.display) != presentationDisplay {
        presentation.Dismiss();
        presentation := null;
      }
      if presentation == null && presentationDisplay.Some? {
        presentation := new DemoPresentation(presentationDisplay.value);
        var thrown := presentation.Show(showFails);
        if thrown {
          presentation := null;
        }
      }
      UpdateContents();
    }

    /** `onResume`: listen for route changes, clear `mPaused`, and update for the selected route. */
    method OnResume(route: Option<RouteInfo>, showFails: bool)
      modifies this, presentation
      ensures listening && !paused
      ensures ShownDisplay() == NextPresentationDisplay(old(ShownDisplay()), TargetDisplay(route), showFails)
      ensures ContentsShown()
    {
      listening := true;
      paused := false;
      UpdatePresentation(route, showFails);
    }

    /** `onPause`: stop listening, set `mPaused` and pause whichever surface is playing. */
    method OnPause()
      modifies this, presentation
      ensures !listening && paused
      ensures presentation == old(presentation)
      ensures presentation != null ==> presentation.showing == old(presentation.showing)
      ensures ContentsShown()
    {
      listening := false;
      paused := true;
      UpdateContents();
    }

    /** `onStop`: dismiss and forget any presentation; the screen itself is not updated here. */
    method OnStop()
      modifies this, presentation
      ensures presentation == null
      ensures old(presentation) != null ==> !old(presentation).showing
      ensures paused == old(paused) && listening == old(listening)
      ensures mainVisible == old(mainVisible) && mainPaused == old(mainPaused) && info == old(info)
    {
      if presentation != null {
        presentation.Dismiss();
        presentation := null;
      }
    }

    /** A media-router callback (route selected, unselected, or its presentation display changed). */
    method OnRouteChanged(route: Option<RouteInfo>, showFails: bool)
      modifies this, presentation
      ensures ShownDisplay() == NextPresentationDisplay(old(ShownDisplay()), TargetDisplay(route), showFails)
      ensures paused == old(paused) && listening == old(listening)
      ensures ContentsShown()
    {
      UpdatePresentation(route, showFails);
    }

    /** The dismiss listener: only the current presentation's dismissal clears it. */
    method OnDismiss(dialog: DemoPresentation)
      modifies this, presentation
      ensures old(presentation) == dialog ==> presentation == null && ContentsShown()
      ensures old(presentation) != dialog ==>
                presentation == old(presentation) && CurrentScreen() == old(CurrentScreen())
      ensures paused == old(paused) && listening == old(listening)
    {
      if dialog == presentation {
        presentation := null;
        UpdateContents();
      }
    }
  }
}
