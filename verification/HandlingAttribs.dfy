/** ApplyAttribEntries: a list of attribute settings applied to one handling record, in order.
    Floating-point fields are reals. */
module HandlingAttribs {
  import opened Common

  datatype Entry =
    | MaxVelocity(v: real)
    | EngineAcceleration(v: real)
    | BrakeDeceleration(v: real)
    | CollisionDamage(v: real)
    | Mass(v: real)
    | TurnMass(v: real)
    | NumberOfGears(b: byte)
    | DriveType(b: byte)

  datatype Record = Record(
    maxGearVelocity: real,
    minGearVelocity: real,
    engineAcceleration: real,
    brakeDeceleration: real,
    collisionDamage: real,
    mass: real,
    turnMass: real,
    gears: byte,
    driveType: byte)

  const ALL_WHEELS: byte := 0x34 // '4'

  function WheelMult(drive: byte): real { if drive == ALL_WHEELS then 0.25 else 0.5 }

  function EffectiveMass(r: Record): (m: real)
    ensures m > 0.0
  {
    if r.mass > 0.0 then r.mass else 1500.0
  }

  function DamageFor(v: real, mass: real): real
    requires mass > 0.0
  {
    v * (2000.0 / mass)
  }

  function Apply(r: Record, e: Entry): Record {
    match e
    case MaxVelocity(v) =>
      var units := v / 180.0;
      r.(maxGearVelocity := units * 1.2, minGearVelocity := if -units * 0.3 < -0.2 then -0.2 else -units * 0.3)
    case EngineAcceleration(v) => r.(engineAcceleration := v * 0.0004 * WheelMult(r.driveType))
    case BrakeDeceleration(v) => r.(brakeDeceleration := v * 0.0004)
    case CollisionDamage(v) => r.(collisionDamage := DamageFor(v, EffectiveMass(r)))
    case Mass(v) => r.(mass := v)
    case TurnMass(v) => r.(turnMass := v)
    case NumberOfGears(b) => r.(gears := b)
    case DriveType(b) =>
      r.(driveType := b,
         engineAcceleration :=
           if b == r.driveType then r.engineAcceleration
           else if b == ALL_WHEELS then r.engineAcceleration * 0.5
           else if r.driveType == ALL_WHEELS then r.engineAcceleration * 2.0
           else r.engineAcceleration)
  }

  function ApplyAll(r: Record, entries: seq<Entry>): Record {
    if entries == [] then r else Apply(ApplyAll(r, entries[..|entries| - 1]), entries[|entries| - 1])
  }

  // The transmission's gear ratios are computed anew.
  predicate NeedsInit(entries: seq<Entry>) {
    exists i | 0 <= i < |entries| ::
      entries[i].MaxVelocity? || entries[i].EngineAcceleration? || entries[i].NumberOfGears? || entries[i].DriveType?
  }

  class HandlingData {
    var record: Record

    constructor (record: Record)
      ensures this.record == record
    {
      this.record := record;
    }

    method ApplyAttribEntries(entries: seq<Entry>) returns (transmissionNeedsInit: bool)
      modifies this
      ensures record == ApplyAll(old(record), entries)
      ensures transmissionNeedsInit <==> NeedsInit(entries)
    {
      transmissionNeedsInit := false;
      for i := 0 to |entries|
        invariant record == ApplyAll(old(record), entries[..i])
        invariant transmissionNeedsInit <==> NeedsInit(entries[..i])
      {
        var e := entries[i];
        assert entries[..i + 1][..i] == entries[..i];
        match e {
          case MaxVelocity(v) =>
            var units := v / 180.0;
            record := record.(maxGearVelocity := units * 1.2);
            var least := -units * 0.3;
            if least < -0.2 {
              least := -0.2;
            }
            record := record.(minGearVelocity := least);
          case EngineAcceleration(v) =>
            var wheelMult := if record.driveType == ALL_WHEELS then 0.25 else 0.5;
            record := record.(engineAcceleration := v * 0.0004 * wheelMult);
          case BrakeDeceleration(v) => record := record.(brakeDeceleration := v * 0.0004);
          case CollisionDamage(v) =>
            var mass := if record.mass > 0.0 then record.mass else 1500.0;
            record := record.(collisionDamage := v * (2000.0 / mass));
          case Mass(v) => record := record.(mass := v);
          case TurnMass(v) => record := record.(turnMass := v);
          case NumberOfGears(b) => record := record.(gears := b);
          case DriveType(b) =>
            var before := record.driveType;
            record := record.(driveType := b);
            if before != b {
              if b == ALL_WHEELS {
                record := record.(engineAcceleration := record.engineAcceleration * 0.5);
              } else if before == ALL_WHEELS {
                record := record.(engineAcceleration := record.engineAcceleration * 2.0);
              }
            }
        }
        if e.MaxVelocity? || e.EngineAcceleration? || e.NumberOfGears? || e.DriveType? {
          transmissionNeedsInit := true;
          assert entries[..i + 1][i] == e;
        }
      }
      assert entries[..|entries|] == entries;
    }
  }

  // ---- order ----

  function LastAcceleration(entries: seq<Entry>): Option<real> {
    if entries == [] then None
    else if entries[|entries| - 1].EngineAcceleration? then Some(entries[|entries| - 1].v)
    else LastAcceleration(entries[..|entries| - 1])
  }

  function LastDrive(r: Record, entries: seq<Entry>): byte {
    if entries == [] then r.driveType
    else if entries[|entries| - 1].DriveType? then entries[|entries| - 1].b
    else LastDrive(r, entries[..|entries| - 1])
  }

  /** However accelerations and drive types are interleaved, the acceleration ends as 0.0004 times
      the last value given, scaled for the last drive type; without one, the old value is rescaled. */
  lemma {:induction false} AccelerationFollowsDrive(r: Record, entries: seq<Entry>)
    ensures
      var s := ApplyAll(r, entries);
      && s.driveType == LastDrive(r, entries)
      && s.engineAcceleration / WheelMult(s.driveType) ==
           match LastAcceleration(entries)
           case Some(v) => 0.0004 * v
           case None => r.engineAcceleration / WheelMult(r.driveType)
  {
    if entries != [] {
      AccelerationFollowsDrive(r, entries[..|entries| - 1]);
    }
  }

  /** So two lists with the same last acceleration and the same last drive type, in whatever order,
      leave the same acceleration. */
  lemma AccelerationIsConfluent(r: Record, a: seq<Entry>, b: seq<Entry>)
    requires LastAcceleration(a) == LastAcceleration(b) && LastDrive(r, a) == LastDrive(r, b)
    ensures ApplyAll(r, a).engineAcceleration == ApplyAll(r, b).engineAcceleration
  {
    AccelerationFollowsDrive(r, a);
    AccelerationFollowsDrive(r, b);
    hide ApplyAll, LastAcceleration, LastDrive;
    var x, y, m := ApplyAll(r, a).engineAcceleration, ApplyAll(r, b).engineAcceleration, WheelMult(LastDrive(r, a));
    assert x / m * m == y / m * m;
  }

  // ---- what each setting comes to ----

  datatype Dial = Speed | Brake | Weight | Turn | Gears | Drive

  function DialOf(e: Entry): Option<Dial> {
    match e
    case MaxVelocity(_) => Some(Speed)
    case BrakeDeceleration(_) => Some(Brake)
    case Mass(_) => Some(Weight)
    case TurnMass(_) => Some(Turn)
    case NumberOfGears(_) => Some(Gears)
    case DriveType(_) => Some(Drive)
    case _ => None
  }

  function LastOn(entries: seq<Entry>, dial: Dial): Option<Entry> {
    if entries == [] then None
    else if DialOf(entries[|entries| - 1]) == Some(dial) then Some(entries[|entries| - 1])
    else LastOn(entries[..|entries| - 1], dial)
  }

  // What the client shows for a record: the speed in km/h, the brake in the units it was set in.
  function ShownSpeed(r: Record): real { r.maxGearVelocity / 1.2 * 180.0 }

  function ShownBrake(r: Record): real { r.brakeDeceleration / 0.0004 }

  // The record shows the setting. Reverse gear is a quarter of the top speed, and -0.2 at most.
  predicate Shows(r: Record, e: Entry) {
    match e
    case MaxVelocity(v) =>
      ShownSpeed(r) == v && r.minGearVelocity >= -0.2
      && (r.minGearVelocity == -0.2 || r.minGearVelocity == -0.25 * r.maxGearVelocity)
      && (r.minGearVelocity == -0.2 ==> r.maxGearVelocity >= 0.8)
    case BrakeDeceleration(v) => ShownBrake(r) == v
    case Mass(v) => r.mass == v
    case TurnMass(v) => r.turnMass == v
    case NumberOfGears(b) => r.gears == b
    case DriveType(b) => r.driveType == b
    case _ => true
  }

  predicate SameOn(r: Record, s: Record, dial: Dial) {
    match dial
    case Speed => s.maxGearVelocity == r.maxGearVelocity && s.minGearVelocity == r.minGearVelocity
    case Brake => s.brakeDeceleration == r.brakeDeceleration
    case Weight => s.mass == r.mass
    case Turn => s.turnMass == r.turnMass
    case Gears => s.gears == r.gears
    case Drive => s.driveType == r.driveType
  }

  lemma ApplyShows(r: Record, e: Entry)
    ensures Shows(Apply(r, e), e)
  {
    match e
    case MaxVelocity(v) => SpeedShows(v);
    case BrakeDeceleration(v) => assert v * 0.0004 / 0.0004 == v;
    case _ =>
  }

  lemma SpeedShows(v: real)
    ensures v / 180.0 * 1.2 / 1.2 * 180.0 == v
    ensures -(v / 180.0) * 0.3 == -0.25 * (v / 180.0 * 1.2)
  {
  }

  lemma ApplyLeaves(r: Record, e: Entry, f: Entry, dial: Dial)
    requires DialOf(e) != Some(dial)
    ensures SameOn(r, Apply(r, e), dial)
    ensures Shows(r, f) && DialOf(f) == Some(dial) ==> Shows(Apply(r, e), f)
  {
  }

  /** After any list of settings the record shows the last one of each kind: the speed in km/h, with reverse
      gear at a quarter of it down to -0.2, the brake, the masses, the gears and the drive; and what no
      setting was for is as before. */
  lemma {:induction false} LastSettingShows(r: Record, entries: seq<Entry>, dial: Dial)
    ensures
      match LastOn(entries, dial)
      case Some(e) => DialOf(e) == Some(dial) && Shows(ApplyAll(r, entries), e)
      case None => SameOn(r, ApplyAll(r, entries), dial)
  {
    hide Apply, Shows;
    if entries != [] {
      var front, e := entries[..|entries| - 1], entries[|entries| - 1];
      LastSettingShows(r, front, dial);
      ApplyShows(ApplyAll(r, front), e);
      if DialOf(e) != Some(dial) {
        ApplyLeaves(ApplyAll(r, front), e, if LastOn(front, dial).Some? then LastOn(front, dial).value else e, dial);
      }
    }
  }

  /** The damage set is shown for the mass in effect when it was set, 2000 counting once; and no other setting
      changes it. */
  lemma DamageIsForTheMassThen(r: Record, e: Entry)
    ensures
      if e.CollisionDamage? then Apply(r, e).collisionDamage * (if r.mass > 0.0 then r.mass else 1500.0) == e.v * 2000.0
      else Apply(r, e).collisionDamage == r.collisionDamage
  {
    if e.CollisionDamage? {
      var m := EffectiveMass(r);
      assert 2000.0 / m * m == 2000.0;
      assert e.v * (2000.0 / m) * m == e.v * (2000.0 / m * m);
    }
  }

  lemma Proportional(c: real, x: real, y: real)
    requires x > 0.0 && y > 0.0
    ensures DamageFor(c, x) == DamageFor(c, y) <==> c == 0.0 || x == y
  {
    var p, q := 2000.0 / x, 2000.0 / y;
    assert p * x == 2000.0 && q * y == 2000.0;
    if c * p == c * q && c != 0.0 {
      assert c * (p - q) == 0.0;
      assert p == q;
      assert p * (x - y) == 0.0;
    }
  }

  /** Collision damage is not like that: it is scaled by the mass at that moment, so setting the mass
      before or after it is the same exactly when the value is zero or the mass in effect is not
      changed. */
  lemma MassAndDamageCommuteIff(r: Record, damage: real, mass: real)
    ensures ApplyAll(r, [CollisionDamage(damage), Mass(mass)]) == ApplyAll(r, [Mass(mass), CollisionDamage(damage)])
       <==> damage == 0.0 || EffectiveMass(r) == EffectiveMass(r.(mass := mass))
  {
    hide ApplyAll, DamageFor;
    ApplyTwo(r, CollisionDamage(damage), Mass(mass));
    ApplyTwo(r, Mass(mass), CollisionDamage(damage));
    Proportional(damage, EffectiveMass(r), EffectiveMass(r.(mass := mass)));
  }

  lemma ApplyTwo(r: Record, e: Entry, f: Entry)
    ensures ApplyAll(r, [e, f]) == Apply(Apply(r, e), f)
  {
    hide Apply;
    var entries := [e, f];
    assert entries[..1] == [e] && entries[..1][..0] == [];
    assert ApplyAll(r, [e]) == Apply(ApplyAll(r, [e][..0]), e);
    assert ApplyAll(r, entries) == Apply(ApplyAll(r, entries[..1]), f);
  }
}
