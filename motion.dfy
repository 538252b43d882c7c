/** The robot model's move selection: which way a move turns, which entry
    of the turn-radius table it uses, which steering signal it sends, and the
    validated motion-profile limits. Distances, limits and control signals are
    real numbers; the wheel ratio, encoder ticks and the s-curve profile are
    not part of this model. */
module Motion {
  import opened Messages

  type i32 = x: int | -0x8000_0000 <= x < 0x8000_0000

  /** The machine word used for table indices. */
  const USIZE_MODULUS: int := 0x1_0000_0000_0000_0000

  datatype ModelError = RadiusNotSupported | ProfileLimitsNonPositive

  /** One supported turn: its radius in metres and the servo signals for a
      left and for a right turn. */
  datatype TurnRadius = TurnRadius(radius: real, controlLeft: real, controlRight: real)

  /** Robot geometry and calibration. */
  datatype ModelConfig = ModelConfig(countsPerMetre: real, a2: real, l: real, w: real,
                                     turnRadii: seq<TurnRadius>, neutralControl: real)

  /** Gains of one wheel's position controller. */
  datatype PidParams = PidParams(gains: seq<real>)

  /** Motion control configuration. */
  datatype MotionConfig = MotionConfig(pidLeft: PidParams, pidRight: PidParams,
                                       pidUpdateInterval: real, maxJerk: real, maxAccel: real,
                                       maxVelocity: real, steeringSetupTime: real)

  /** Whether a move goes straight or along the given table entry. */
  datatype Geometry = Straight | Turn(entry: TurnRadius)

  /** The limits handed to the profile generator. */
  datatype Constraints = Constraints(maxJerk: real, maxAccel: real, maxVelocity: real)

  /** The discrete part of a generated move request. */
  datatype MoveSelection = MoveSelection(geometry: Geometry, refLeft: bool, steering: real,
                                         steeringSetupMs: u16, reverse: bool,
                                         constraints: Constraints)

  /** `radius.abs() as usize` in a release build: the absolute value wraps
      for the most negative `i32`, and the cast sign-extends it. */
  function UsizeAbs(radius: i32): nat
  {
    if radius == -0x8000_0000 then USIZE_MODULUS - 0x8000_0000
    else if radius < 0 then -radius
    else radius
  }

  function SaturatingSub(a: nat, b: nat): nat
  {
    if a >= b then a - b else 0
  }

  /** Element `i` of `s`, if there is one. */
  function Get<T>(s: seq<T>, i: nat): Option<T>
  {
    if i < |s| then Some(s[i]) else None
  }

  /** The steering setup time in seconds converted to whole milliseconds,
      saturating into the range of a `u16`. */
  function SteeringSetupMs(seconds: real): (ms: u16)
    ensures seconds * 1000.0 <= 0.0 ==> ms == 0
    ensures seconds * 1000.0 >= 65535.0 ==> ms == 0xffff
    ensures 0.0 <= seconds * 1000.0 < 65535.0 ==> ms as real <= seconds * 1000.0 < ms as real + 1.0
  {
    var x := seconds * 1000.0;
    if x <= 0.0 then 0
    else if x >= 65535.0 then 0xffff
    else x.Floor
  }

  /** The robot model: configuration that the move generator reads and that
      updates of the profile limits change. */
  class Model {
    var model: ModelConfig
    var motion: MotionConfig

    constructor (model: ModelConfig, motion: MotionConfig)
      ensures this.model == model && this.motion == motion
    {
      this.model := model;
      this.motion := motion;
    }

    /** Selects the move for turn `radius` (an index into the turn table,
        positive for left turns, negative for right turns, 0 for straight)
        and signed `distance` in metres. */
    function GenerateMove(radius: i32, distance: real): (r: Result<MoveSelection, ModelError>)
      reads this
      // Only a radius beyond the table fails; a straight move never does.
      ensures r.Err? <==> radius != 0 && UsizeAbs(radius) > |model.turnRadii|
      ensures r.Err? ==> r.error == RadiusNotSupported
      ensures r.Ok? ==> r.value.refLeft == (radius <= 0)
      ensures r.Ok? ==> r.value.reverse == (distance < 0.0)
      ensures r.Ok? ==> r.value.steeringSetupMs == SteeringSetupMs(motion.steeringSetupTime)
      ensures r.Ok? ==> r.value.constraints
                        == Constraints(motion.maxJerk, motion.maxAccel, motion.maxVelocity)
      ensures radius == 0 ==> r.Ok? && r.value.geometry == Straight
                              && r.value.steering == model.neutralControl
      // A left turn uses entry radius - 1 and its left-turn signal.
      ensures 0 < radius <= |model.turnRadii| ==>
                r.Ok? && r.value.geometry == Turn(model.turnRadii[radius - 1])
                && r.value.steering == model.turnRadii[radius - 1].controlLeft
      // A right turn uses entry -radius - 1 and its right-turn signal.
      ensures -0x8000_0000 < radius < 0 && -(radius as int) <= |model.turnRadii| ==>
                r.Ok? && r.value.geometry == Turn(model.turnRadii[-(radius as int) - 1])
                && r.value.steering == model.turnRadii[-(radius as int) - 1].controlRight
    {
      var refLeft := radius <= 0;
      var leftTurn := !refLeft;
      var straight := radius == 0;
      var reverse := distance < 0.0;
      var constraints := Constraints(motion.maxJerk, motion.maxAccel, motion.maxVelocity);
      var steeringSetupMs := SteeringSetupMs(motion.steeringSetupTime);
      if straight then
        Ok(MoveSelection(Straight, refLeft, model.neutralControl, steeringSetupMs, reverse, constraints))
      else
        match Get(model.turnRadii, SaturatingSub(UsizeAbs(radius), 1))
        case Some(entry) =>
          var control := if leftTurn then entry.controlLeft else entry.controlRight;
          Ok(MoveSelection(Turn(entry), refLeft, control, steeringSetupMs, reverse, constraints))
        case None => Err(RadiusNotSupported)
    }

    /** Replaces the three profile limits after checking that all are
        positive; on failure nothing changes. */
    method SetMotionProfileLimits(maxJerk: real, maxAccel: real, maxVelocity: real)
      returns (r: Result<(), ModelError>)
      modifies this
      ensures r.Err? <==> maxJerk <= 0.0 || maxAccel <= 0.0 || maxVelocity <= 0.0
      ensures r.Err? ==> r.error == ProfileLimitsNonPositive && motion == old(motion)
      ensures r.Ok? ==> motion == old(motion).(maxJerk := maxJerk, maxAccel := maxAccel,
                                               maxVelocity := maxVelocity)
      ensures model == old(model)
      // Accepted limits are positive, and positive limits stay positive.
      ensures r.Ok? ==> LimitsPositive(motion)
      ensures LimitsPositive(old(motion)) ==> LimitsPositive(motion)
    {
      if maxJerk <= 0.0 || maxAccel <= 0.0 || maxVelocity <= 0.0 {
        return Err(ProfileLimitsNonPositive);
      }
      motion := motion.(maxJerk := maxJerk);
      motion := motion.(maxAccel := maxAccel);
      motion := motion.(maxVelocity := maxVelocity);
      r := Ok(());
    }
  }

  predicate LimitsPositive(m: MotionConfig)
  {
    m.maxJerk > 0.0 && m.maxAccel > 0.0 && m.maxVelocity > 0.0
  }

  /** A turn of radius `radius` and one of `-radius` use the same table entry,
      in opposite directions; so do their failures. */
  lemma MirroredTurnsShareEntry(m: Model, radius: i32, distance: real)
    requires radius != -0x8000_0000
    ensures var left := m.GenerateMove(radius, distance);
            var right := m.GenerateMove(-radius, distance);
            && (left.Err? <==> right.Err?)
            && (left.Ok? ==> left.value.geometry == right.value.geometry)
            && (left.Ok? && radius != 0 ==> left.value.refLeft != right.value.refLeft)
  {
  }

  /** The most negative radius wraps to an enormous index and is therefore
      always refused, as is any radius beyond the table. */
  lemma MostNegativeRadiusRefused(m: Model, distance: real)
    requires |m.model.turnRadii| < 0x8000_0000
    ensures m.GenerateMove(-0x8000_0000, distance) == Err(RadiusNotSupported)
  {
  }
}
