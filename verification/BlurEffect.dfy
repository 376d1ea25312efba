/**
  src/shell-blur-effect.c: how far a blur is downscaled, and when its offscreen framebuffers are used again. Floats are
  real numbers here.
 */
module BlurEffect {
  import opened Wrappers

  const MIN_DOWNSCALE_SIZE: real := 256.0
  const MAX_RADIUS: real := 12.0

  function Power(k: nat): (r: real)
    ensures r >= 1.0
  {
    if k == 0 then 1.0 else 2.0 * Power(k - 1)
  }

  // At this factor the radius is small enough, or a side is.
  predicate Enough(width: real, height: real, radius: real, factor: real)
    requires factor > 0.0
  {
    radius / factor <= MAX_RADIUS || width / factor <= MIN_DOWNSCALE_SIZE || height / factor <= MIN_DOWNSCALE_SIZE
  }

  // The least power of two that is enough.
  ghost predicate LeastFactor(width: real, height: real, radius: real, factor: real) {
    exists k: nat :: IsLeast(width, height, radius, factor, k)
  }

  ghost predicate IsLeast(width: real, height: real, radius: real, factor: real, k: nat) {
    && factor == Power(k) && Enough(width, height, radius, factor)
    && forall j: nat :: j < k ==> !Enough(width, height, radius, Power(j))
  }

  lemma LeastUnique(width: real, height: real, radius: real, f: real, g: real)
    requires LeastFactor(width, height, radius, f) && LeastFactor(width, height, radius, g)
    ensures f == g
  {
    var j: nat :| IsLeast(width, height, radius, f, j);
    var k: nat :| IsLeast(width, height, radius, g, k);
  }

  lemma Halved(x: real, factor: real)
    requires factor > 0.0
    ensures 2.0 * (x / (factor * 2.0)) == x / factor
    ensures x / factor > MAX_RADIUS ==> 0 <= (x / (factor * 2.0)).Floor < (x / factor).Floor
  {
    var y := x / (factor * 2.0);
    assert y * (factor * 2.0) == x;
    assert (2.0 * y) * factor == x;
    Quotient(2.0 * y, factor, x);
  }

  lemma Quotient(q: real, d: real, x: real)
    requires d > 0.0 && q * d == x
    ensures q == x / d
  {
  }

  // None of the first k powers is enough.
  ghost predicate NoneEnough(width: real, height: real, radius: real, k: nat) {
    forall j: nat :: j < k ==> !Enough(width, height, radius, Power(j))
  }

  // calculate_downscale_factor
  method CalculateDownscaleFactor(width: real, height: real, radius: real) returns (factor: real)
    ensures factor >= 1.0 && LeastFactor(width, height, radius, factor)
  {
    factor := 1.0;
    var scaledWidth, scaledHeight, scaledRadius := width, height, radius;
    ghost var k: nat := 0;
    while scaledRadius > MAX_RADIUS && scaledWidth > MIN_DOWNSCALE_SIZE && scaledHeight > MIN_DOWNSCALE_SIZE
      invariant factor == Power(k)
      invariant scaledWidth == width / factor && scaledHeight == height / factor && scaledRadius == radius / factor
      invariant NoneEnough(width, height, radius, k)
      decreases if scaledRadius > MAX_RADIUS then scaledRadius.Floor + 1 else 0
    {
      NextPower(width, height, radius, k);
      Halved(radius, factor);
      factor := factor * 2.0;
      scaledWidth := width / factor;
      scaledHeight := height / factor;
      scaledRadius := radius / factor;
      k := k + 1;
    }
    Stops(width, height, radius, factor, k);
  }

  lemma NextPower(width: real, height: real, radius: real, k: nat)
    requires NoneEnough(width, height, radius, k) && !Enough(width, height, radius, Power(k))
    ensures NoneEnough(width, height, radius, k + 1) && Power(k + 1) == Power(k) * 2.0
  {
  }

  lemma Stops(width: real, height: real, radius: real, factor: real, k: nat)
    requires factor == Power(k) && NoneEnough(width, height, radius, k) && Enough(width, height, radius, factor)
    ensures LeastFactor(width, height, radius, factor)
  {
    assert IsLeast(width, height, radius, factor, k);
  }

  datatype Mode = ACTOR | BACKGROUND

  // An offscreen framebuffer, with what it was made for, and whether the actor was painted to it.
  datatype Framebuffer = Framebuffer(width: nat, height: nat, factor: real, painted: bool)

  // Whether each allocation that may be needed succeeds.
  datatype Luck = Luck(actor: bool, brightness: bool, background: bool)

  predicate MadeFor(fb: Option<Framebuffer>, width: nat, height: nat, factor: real) {
    fb.Some? ==> fb.value.width == width && fb.value.height == height && fb.value.factor == factor
  }

  class Effect {
    var mode: Mode
    var radius: nat
    var texWidth: nat
    var texHeight: nat
    var downscaleFactor: real
    var actorFb: Option<Framebuffer>
    var backgroundFb: Option<Framebuffer>
    var brightnessFb: Option<Framebuffer>
    // The cache flags ACTOR_PAINTED and BLUR_APPLIED.
    var actorPainted: bool
    var blurApplied: bool

    // Every framebuffer kept was made for the size and factor kept.
    predicate Fits()
      reads this
    {
      && MadeFor(actorFb, texWidth, texHeight, downscaleFactor)
      && MadeFor(brightnessFb, texWidth, texHeight, downscaleFactor)
      && MadeFor(backgroundFb, texWidth, texHeight, 1.0)
    }

    // One is kept only for the mode that uses it.
    predicate Valid()
      reads this
    {
      && Fits()
      && (mode == ACTOR ==> backgroundFb == None)
      && (actorPainted && actorFb.Some? ==> actorFb.value.painted)
    }

    // shell_blur_effect_init
    constructor ()
      ensures Valid() && actorFb == None && brightnessFb == None && backgroundFb == None
      ensures mode == ACTOR && radius == 0
    {
      mode, radius := ACTOR, 0;
      texWidth, texHeight, downscaleFactor := 0, 0, 0.0;
      actorFb, backgroundFb, brightnessFb := None, None, None;
      actorPainted, blurApplied := false, false;
    }

    // shell_blur_effect_set_actor; the cache flags stay as they are.
    method SetActor()
      requires Valid()
      modifies this`actorFb, this`backgroundFb, this`brightnessFb
      ensures Valid() && actorFb == None && backgroundFb == None && brightnessFb == None
    {
      actorFb, backgroundFb, brightnessFb := None, None, None;
    }

    // shell_blur_effect_set_radius
    method SetRadius(to: nat)
      requires Valid()
      modifies this`radius, this`blurApplied
      ensures Valid() && radius == to && (blurApplied <==> old(blurApplied) && old(radius) == to)
    {
      if radius == to {
        return;
      }
      radius := to;
      blurApplied := false;
    }

    // shell_blur_effect_set_mode
    method SetMode(to: Mode)
      requires Valid()
      modifies this`mode, this`blurApplied, this`backgroundFb
      ensures Valid() && mode == to && (blurApplied <==> old(blurApplied) && old(mode) == to)
      ensures backgroundFb == if to == ACTOR then None else old(backgroundFb)
    {
      if mode == to {
        return;
      }
      mode := to;
      blurApplied := false;
      if to == ACTOR {
        backgroundFb := None;
      }
    }

    // update_fbo, whose allocation succeeds or not.
    static method UpdateFbo(width: nat, height: nat, factor: real, succeeds: bool) returns (fb: Option<Framebuffer>)
      ensures fb == if succeeds then Some(Framebuffer(width, height, factor, false)) else None
    {
      fb := if succeeds then Some(Framebuffer(width, height, factor, false)) else None;
    }

    // update_actor_fbo
    method UpdateActorFbo(width: nat, height: nat, factor: real, succeeds: bool) returns (ok: bool)
      modifies this`actorFb, this`actorPainted
      ensures
        var reused := Same(width, height, factor) && old(actorFb).Some?;
        && ok == (reused || succeeds) && actorPainted == (reused && old(actorPainted))
        && actorFb == (if reused then old(actorFb)
                       else if succeeds then Some(Framebuffer(width, height, factor, false)) else None)
    {
      if Same(width, height, factor) && actorFb.Some? {
        return true;
      }
      actorPainted := false;
      actorFb := UpdateFbo(width, height, factor, succeeds);
      ok := actorFb.Some?;
    }

    // update_brightness_fbo
    method UpdateBrightnessFbo(width: nat, height: nat, factor: real, succeeds: bool) returns (ok: bool)
      modifies this`brightnessFb
      ensures ok == brightnessFb.Some?
      ensures brightnessFb == if Same(width, height, factor) && old(brightnessFb).Some? then old(brightnessFb)
                              else if succeeds then Some(Framebuffer(width, height, factor, false)) else None
    {
      if Same(width, height, factor) && brightnessFb.Some? {
        return true;
      }
      brightnessFb := UpdateFbo(width, height, factor, succeeds);
      ok := brightnessFb.Some?;
    }

    // update_background_fbo
    method UpdateBackgroundFbo(width: nat, height: nat, succeeds: bool) returns (ok: bool)
      modifies this`backgroundFb
      ensures ok == backgroundFb.Some?
      ensures backgroundFb == if texWidth == width && texHeight == height && old(backgroundFb).Some?
                              then old(backgroundFb)
                              else if succeeds then Some(Framebuffer(width, height, 1.0, false)) else None
    {
      if texWidth == width && texHeight == height && backgroundFb.Some? {
        return true;
      }
      backgroundFb := UpdateFbo(width, height, 1.0, succeeds);
      ok := backgroundFb.Some?;
    }

    predicate Same(width: nat, height: nat, factor: real)
      reads this`texWidth, this`texHeight, this`downscaleFactor
    {
      texWidth == width && texHeight == height && downscaleFactor == factor
    }

    /**
      Whether the framebuffers kept fit a size and a factor once updated for them, with this luck: one that is not made
      anew because an allocation before it fails must not be there, or be good still.
     */
    predicate FitsOnce(width: nat, height: nat, factor: real, luck: Luck)
      reads this
    {
      var actorOk := (Same(width, height, factor) && actorFb.Some?) || luck.actor;
      var brightnessOk := (Same(width, height, factor) && brightnessFb.Some?) || luck.brightness;
      && (actorOk || Same(width, height, factor) || brightnessFb == None)
      && ((actorOk && brightnessOk) || (texWidth == width && texHeight == height) || backgroundFb == None)
    }

    /**
      update_framebuffers. When it succeeds, every framebuffer the mode uses was made for the size and for the least
      factor that is enough, if those kept were right before. When an allocation fails the size is recorded all the
      same, and a framebuffer that was kept is then taken for one of the new size: FitsOnce says exactly when those kept
      are right afterwards, and an update for the size and factor kept does nothing about one that is not.
     */
    method UpdateFramebuffers(width: nat, height: nat, luck: Luck) returns (updated: bool)
      modifies this`texWidth, this`texHeight, this`downscaleFactor, this`actorFb, this`backgroundFb, this`brightnessFb,
               this`actorPainted
      ensures texWidth == width && texHeight == height && downscaleFactor >= 1.0
      ensures LeastFactor(width as real, height as real, radius as real, downscaleFactor)
      ensures old(Valid()) && updated ==>
                && Valid() && actorFb.Some? && brightnessFb.Some? && (mode == BACKGROUND ==> backgroundFb.Some?)
                && (actorPainted ==> actorFb.value.painted)
      ensures luck == Luck(true, true, true) ==> updated
      ensures
        var factor := downscaleFactor;
        old(Valid()) ==> (Valid() <==> Fits()) && (Fits() <==> old(FitsOnce(width, height, factor, luck)))
      ensures
        var factor := downscaleFactor;
        var same := old(Same(width, height, factor));
        var actorOk := (same && old(actorFb).Some?) || luck.actor;
        && (same && luck == Luck(true, true, true) ==>
              && actorFb.Some? && brightnessFb.Some? && (mode == BACKGROUND ==> backgroundFb.Some?)
              && (Fits() <==> old(Fits())))
        && (actorOk && same && old(brightnessFb).Some? ==> brightnessFb == old(brightnessFb))
        && (!actorOk ==> !updated && brightnessFb == old(brightnessFb))
        && (mode == ACTOR ==> backgroundFb == old(backgroundFb))
    {
      hide LeastFactor;
      var factor := CalculateDownscaleFactor(width as real, height as real, radius as real);
      updated := UpdateActorFbo(width, height, factor, luck.actor);
      if updated {
        updated := UpdateBrightnessFbo(width, height, factor, luck.brightness);
      }
      if mode == BACKGROUND && updated {
        updated := UpdateBackgroundFbo(width, height, luck.background);
      }
      texWidth, texHeight, downscaleFactor := width, height, factor;
    }

    // paint_actor_offscreen, after the framebuffers were updated: paints the actor unless its picture is good still.
    method PaintActorOffscreen(dirty: bool) returns (painted: bool)
      requires Valid() && actorFb.Some?
      modifies this`actorFb, this`actorPainted
      ensures Valid() && actorFb == Some(old(actorFb).value.(painted := true)) && actorPainted
      ensures !painted ==> old(actorFb).value.painted && !dirty
    {
      painted := dirty || !actorPainted;
      if painted {
        actorFb := Some(actorFb.value.(painted := true));
        actorPainted := true;
      }
    }
  }

  /**
    From any state that is right, an update with whatever luck and then one for the same size with every allocation
    succeeding: the second succeeds, and what it uses fits exactly if FitsOnce held to begin with.
   */
  method UpdateAgain(e: Effect, width: nat, height: nat, luck: Luck) returns (updated: bool)
    requires e.Valid()
    modifies e
    ensures updated && e.texWidth == width && e.texHeight == height && e.mode == old(e.mode)
    ensures LeastFactor(width as real, height as real, e.radius as real, e.downscaleFactor) && e.radius == old(e.radius)
    ensures e.actorFb.Some? && e.brightnessFb.Some? && (e.mode == BACKGROUND <==> e.backgroundFb.Some?)
    ensures
      var factor := e.downscaleFactor;
      e.Fits() <==> old(e.FitsOnce(width, height, factor, luck))
  {
    var _ := e.UpdateFramebuffers(width, height, luck);
    ghost var factor := e.downscaleFactor;
    updated := e.UpdateFramebuffers(width, height, Luck(true, true, true));
    LeastUnique(width as real, height as real, e.radius as real, factor, e.downscaleFactor);
  }

  /**
    An allocation fails while the size changes; the next update succeeds, but uses a brightness framebuffer that was
    made for the size before.
   */
  method StaleAfterFailure() returns (e: Effect, updated: bool)
    ensures updated && fresh(e) && e.texWidth == 200 && e.brightnessFb.Some? && e.brightnessFb.value.width == 100
  {
    e := new Effect();
    e.SetRadius(1);
    var all := Luck(true, true, true);
    updated := e.UpdateFramebuffers(100, 100, all);
    updated := e.UpdateFramebuffers(200, 200, all.(actor := false));
    ghost var factor := e.downscaleFactor;
    updated := e.UpdateFramebuffers(200, 200, all);
    LeastUnique(200.0, 200.0, 1.0, factor, e.downscaleFactor);
  }
}
