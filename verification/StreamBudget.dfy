/** The frame rate planned for a camera's video so that a snapshot still fits its encoder. */
module StreamBudget {
  import opened Wrappers

  const VIDEO_MAX_FRAME_RATE: int := 60
  const VIDEO_MIN_FRAME_RATE: int := 30

  datatype Resolution = Resolution(width: int, height: int)

  function PixelRate(r: Resolution, frameRate: int): int {
    r.width * r.height * frameRate
  }

  function Min(a: int, b: int): int {
    if a < b then a else b
  }

  function Max(a: int, b: int): int {
    if a < b then b else a
  }

  /** budget None: the camera does not advertise it. Dividing by the positive number of pixels
      rounds down. */
  function PlanVideoMaxFrameRate(budget: Option<int>, video: Resolution, snapshot: int): int {
    var pixels := video.width * video.height;
    if budget.None? || budget.value <= 0 || pixels <= 0 then VIDEO_MAX_FRAME_RATE
    else
      var withSnapshot := (budget.value - snapshot) / pixels;
      if withSnapshot >= VIDEO_MIN_FRAME_RATE then Min(withSnapshot, VIDEO_MAX_FRAME_RATE)
      else Min(Max(budget.value / pixels, 1), VIDEO_MAX_FRAME_RATE)
  }

  function VideoStreamFitsSnapshotBudget(budget: Option<int>, candidate: Resolution, frameRate: int, snapshot: int): bool {
    if budget.None? || budget.value <= 0 || snapshot <= 0 then true
    else PixelRate(candidate, frameRate) + snapshot <= budget.value
  }

  /** The video fits the budget with a reservation beside it. */
  predicate Fits(budget: int, video: Resolution, frameRate: int, reserved: int) {
    PixelRate(video, frameRate) + reserved <= budget
  }

  /** Dividing finds the greatest rate that fits. */
  lemma {:induction false} QuotientIsGreatest(room: int, pixels: int, rate: int)
    requires pixels > 0
    ensures pixels * rate <= room <==> rate <= room / pixels
  {
    var q := room / pixels;
    assert room == pixels * q + room % pixels;
    if rate <= q {
      Scaled(pixels, rate, q);
    } else {
      Scaled(pixels, q + 1, rate);
    }
  }

  lemma {:induction false} Scaled(k: int, a: int, b: int)
    requires k > 0 && a <= b
    ensures k * a <= k * b
  {
    assert k * b == k * a + k * (b - a);
  }

  lemma {:induction false} FitsIff(budget: int, video: Resolution, rate: int, reserved: int)
    requires video.width * video.height > 0
    ensures Fits(budget, video, rate, reserved) <==> rate <= (budget - reserved) / (video.width * video.height)
  {
    QuotientIsGreatest(budget - reserved, video.width * video.height, rate);
  }

  predicate InRange(rate: int, least: int) {
    least <= rate <= 60
  }

  /** The greatest rate from least to 60 that fits. */
  ghost predicate Greatest(rate: int, least: int, budget: int, video: Resolution, reserved: int) {
    && InRange(rate, least) && Fits(budget, video, rate, reserved)
    && forall r | InRange(r, least) && Fits(budget, video, r, reserved) :: r <= rate
  }

  predicate AnyFits(least: int, budget: int, video: Resolution, reserved: int) {
    exists r | least <= r <= 60 :: Fits(budget, video, r, reserved)
  }

  lemma {:induction false} GreatestRate(least: int, budget: int, video: Resolution, reserved: int)
    requires video.width * video.height > 0 && least <= VIDEO_MAX_FRAME_RATE
    ensures var q := (budget - reserved) / (video.width * video.height);
      && (AnyFits(least, budget, video, reserved) <==> q >= least)
      && (q >= least ==> Greatest(Min(q, VIDEO_MAX_FRAME_RATE), least, budget, video, reserved))
  {
    var q := (budget - reserved) / (video.width * video.height);
    forall r ensures Fits(budget, video, r, reserved) <==> r <= q {
      FitsIff(budget, video, r, reserved);
    }
    if q >= least {
      assert Fits(budget, video, Min(q, VIDEO_MAX_FRAME_RATE), reserved);
    }
  }

  /** Where some rate from 30 to 60 leaves room for the snapshot, the plan is the greatest such
      rate; otherwise it is the greatest rate from 1 to 60 that fits alone, or 1. */
  lemma {:induction false} PlanIsOptimal(budget: int, video: Resolution, snapshot: int)
    requires budget > 0 && video.width > 0 && video.height > 0 && snapshot >= 0
    ensures var rate := PlanVideoMaxFrameRate(Some(budget), video, snapshot);
      if AnyFits(30, budget, video, snapshot) then Greatest(rate, 30, budget, video, snapshot)
      else if AnyFits(1, budget, video, 0) then Greatest(rate, 1, budget, video, 0)
      else rate == 1
  {
    PixelsPositive(video);
    GreatestRate(VIDEO_MIN_FRAME_RATE, budget, video, snapshot);
    GreatestRate(1, budget, video, 0);
  }

  lemma {:induction false} PixelsPositive(r: Resolution)
    requires r.width > 0 && r.height > 0
    ensures r.width * r.height > 0
  {
  }

  /** The reuse test accepts the planned rate exactly if the rate leaves room: where one from
      30 to 60 does it always accepts. Otherwise it may still accept a lower planned rate. */
  lemma {:induction false} PlanPassesReuseTest(budget: int, video: Resolution, snapshot: int)
    requires budget > 0 && video.width > 0 && video.height > 0 && snapshot >= 0
    ensures var rate := PlanVideoMaxFrameRate(Some(budget), video, snapshot);
      && (AnyFits(VIDEO_MIN_FRAME_RATE, budget, video, snapshot) ==>
            VideoStreamFitsSnapshotBudget(Some(budget), video, rate, snapshot))
      && (snapshot > 0 ==>
            (VideoStreamFitsSnapshotBudget(Some(budget), video, rate, snapshot)
             <==> rate <= (budget - snapshot) / (video.width * video.height)))
  {
    PixelsPositive(video);
    PlanIsOptimal(budget, video, snapshot);
    FitsIff(budget, video, PlanVideoMaxFrameRate(Some(budget), video, snapshot), snapshot);
  }

  /** A stream that is too fast never passes: any candidate of the planned resolution above a
      planned rate of less than 60 that keeps room is refused. */
  lemma {:induction false} FasterIsRefused(budget: int, video: Resolution, snapshot: int, rate: int)
    requires budget > 0 && video.width > 0 && video.height > 0 && snapshot > 0
    requires AnyFits(VIDEO_MIN_FRAME_RATE, budget, video, snapshot)
    requires PlanVideoMaxFrameRate(Some(budget), video, snapshot) < VIDEO_MAX_FRAME_RATE
    ensures VideoStreamFitsSnapshotBudget(Some(budget), video, rate, snapshot)
       <==> rate <= PlanVideoMaxFrameRate(Some(budget), video, snapshot)
  {
    PixelsPositive(video);
    GreatestRate(VIDEO_MIN_FRAME_RATE, budget, video, snapshot);
    FitsIff(budget, video, rate, snapshot);
  }

  /** Without a budget, or without pixels, the video runs at 60 and every stream passes the test;
      without a snapshot every stream passes it too. */
  lemma {:induction false} NothingToShare(budget: Option<int>, video: Resolution, snapshot: int, rate: int)
    ensures budget.None? || budget.value <= 0 ==>
      PlanVideoMaxFrameRate(budget, video, snapshot) == 60
      && VideoStreamFitsSnapshotBudget(budget, video, rate, snapshot)
    ensures video.width * video.height <= 0 ==> PlanVideoMaxFrameRate(budget, video, snapshot) == 60
    ensures snapshot <= 0 ==> VideoStreamFitsSnapshotBudget(budget, video, rate, snapshot)
  {
  }
}
