/**
 * `hooks/useIntroScreen`: decides on mount whether the intro is shown, and
 * starts at most one transition (slide on wheel or button, fade on resize
 * to desktop width) that navigates to the redirect path when it ends.
 */
module UseIntroScreen {
  import opened Wrappers
  import opened Fetch

  const DefaultBreakpoint: int := 1024
  const DefaultRedirectPath: string := "/Login"
  const DefaultTransitionMs: int := 650

  /** The least wheel movement, in either direction, that starts the slide. */
  const WheelThreshold: int := 20

  datatype Animation = NoAnimation | Slide | Fade

  function Abs(x: int): (r: int)
    ensures r >= 0 && (r == x || r == -x)
  {
    if x < 0 then -x else x
  }

  class IntroScreen {
    const desktopBreakpoint: int
    const redirectPath: string
    const transitionDurationMs: int
    var allowIntro: Option<bool>        // None: not decided yet
    var animation: Animation
    var hasStartedTransition: bool      // the shared trigger-once guard

    ghost predicate Valid()
      reads this
    {
      hasStartedTransition <==> animation != NoAnimation
    }

    /** The props with their defaults, and the first render's state. */
    constructor (breakpoint: Option<int>, path: Option<string>, durationMs: Option<int>)
      ensures Valid()
      ensures desktopBreakpoint == breakpoint.GetOr(DefaultBreakpoint)
      ensures redirectPath == path.GetOr(DefaultRedirectPath)
      ensures transitionDurationMs == durationMs.GetOr(DefaultTransitionMs)
      ensures allowIntro == None && animation == NoAnimation && !hasStartedTransition
    {
      desktopBreakpoint := breakpoint.GetOr(DefaultBreakpoint);
      redirectPath := path.GetOr(DefaultRedirectPath);
      transitionDurationMs := durationMs.GetOr(DefaultTransitionMs);
      allowIntro := None;
      animation := NoAnimation;
      hasStartedTransition := false;
    }

    function IsSliding(): (r: bool)
      reads this
      ensures r <==> animation == Slide
    {
      animation == Slide
    }

    function IsFading(): (r: bool)
      reads this
      ensures r <==> animation == Fade
      ensures r ==> !IsSliding()
    {
      animation == Fade
    }

    /** The mount effect: a desktop-wide window skips the intro and leaves at once. */
    method Mount(innerWidth: int) returns (navigation: Option<Navigation>)
      requires Valid()
      modifies this`allowIntro
      ensures Valid()
      ensures innerWidth >= desktopBreakpoint ==>
        allowIntro == Some(false) && navigation == Some(Replace(redirectPath))
      ensures innerWidth < desktopBreakpoint ==> allowIntro == Some(true) && navigation == None
    {
      if innerWidth >= desktopBreakpoint {
        allowIntro := Some(false);
        navigation := Some(Replace(redirectPath));
      } else {
        allowIntro := Some(true);
        navigation := None;
      }
    }

    /** Starts `next` unless a transition has already started; schedules one redirect. */
    method StartTransition(next: Animation) returns (timer: Option<Timer>)
      requires Valid() && next != NoAnimation
      modifies this`animation, this`hasStartedTransition
      ensures Valid() && hasStartedTransition
      ensures old(hasStartedTransition) ==> timer == None && animation == old(animation)
      ensures !old(hasStartedTransition) ==>
        animation == next && timer == Some(Timer(transitionDurationMs, Replace(redirectPath)))
    {
      if hasStartedTransition {
        return None;
      }
      hasStartedTransition := true;
      animation := next;
      timer := Some(Timer(transitionDurationMs, Replace(redirectPath)));
    }

    /** `triggerSlideToLogin` (also the Start button's handler). */
    method TriggerSlideToLogin() returns (timer: Option<Timer>)
      requires Valid()
      modifies this`animation, this`hasStartedTransition
      ensures Valid() && hasStartedTransition
      ensures old(hasStartedTransition) ==> timer == None && animation == old(animation)
      ensures !old(hasStartedTransition) ==>
        animation == Slide && timer == Some(Timer(transitionDurationMs, Replace(redirectPath)))
    {
      timer := StartTransition(Slide);
    }

    /** `triggerFadeToLogin`. */
    method TriggerFadeToLogin() returns (timer: Option<Timer>)
      requires Valid()
      modifies this`animation, this`hasStartedTransition
      ensures Valid() && hasStartedTransition
      ensures old(hasStartedTransition) ==> timer == None && animation == old(animation)
      ensures !old(hasStartedTransition) ==>
        animation == Fade && timer == Some(Timer(transitionDurationMs, Replace(redirectPath)))
    {
      timer := StartTransition(Fade);
    }

    /** A wheel event; the listener exists only while `allowIntro` is true. */
    method OnWheel(deltaY: int) returns (timer: Option<Timer>)
      requires Valid()
      modifies this`animation, this`hasStartedTransition
      ensures Valid()
      ensures old(animation) != NoAnimation ==> animation == old(animation) && timer == None
      ensures !(allowIntro == Some(true) && Abs(deltaY) > WheelThreshold) ==>
        timer == None && animation == old(animation) && hasStartedTransition == old(hasStartedTransition)
      ensures allowIntro == Some(true) && Abs(deltaY) > WheelThreshold && !old(hasStartedTransition) ==>
        animation == Slide && timer == Some(Timer(transitionDurationMs, Replace(redirectPath)))
    {
      timer := None;
      if allowIntro == Some(true) && Abs(deltaY) > WheelThreshold {
        timer := TriggerSlideToLogin();
      }
    }

    /** A resize event; the listener exists only while `allowIntro` is true. */
    method OnResize(innerWidth: int) returns (timer: Option<Timer>)
      requires Valid()
      modifies this`animation, this`hasStartedTransition
      ensures Valid()
      ensures old(animation) != NoAnimation ==> animation == old(animation) && timer == None
      ensures !(allowIntro == Some(true) && innerWidth >= desktopBreakpoint) ==>
        timer == None && animation == old(animation) && hasStartedTransition == old(hasStartedTransition)
      ensures allowIntro == Some(true) && innerWidth >= desktopBreakpoint && !old(hasStartedTransition) ==>
        animation == Fade && timer == Some(Timer(transitionDurationMs, Replace(redirectPath)))
    {
      timer := None;
      if allowIntro == Some(true) && innerWidth >= desktopBreakpoint {
        timer := TriggerFadeToLogin();
      }
    }
  }

  /** Whatever events follow, only the first trigger schedules a redirect. */
  method TwoTriggersScheduleOneRedirect(screen: IntroScreen, width: int, deltaY: int)
    returns (first: Option<Timer>, second: Option<Timer>)
    requires screen.Valid() && !screen.hasStartedTransition
    modifies screen
    ensures first.Some? && second == None
    ensures screen.animation == Slide
  {
    first := screen.TriggerSlideToLogin();
    second := screen.OnResize(width);
  }
}
