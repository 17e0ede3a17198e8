/**
  The serde form of `JointType`: a shared C++ enum with an `i32`
  representation, serialized as its camelCase name. Serializing matches on
  the representation and deserializing matches on the name, as two separate
  tables; any representation outside the 25 declared joints, which the C++
  side may still hand over, is written as `"unknown"`, a name the
  deserializer rejects.
 */
module JointTypes {
  import opened Wrappers

  /** The enum's representation; values outside the 25 declared joints are possible. */
  datatype JointType = JointType(repr: int)

  const I32Min: int := -0x8000_0000
  const I32Max: int := 0x7FFF_FFFF

  predicate IsI32(x: int) {
    I32Min <= x <= I32Max
  }

  /** A declared joint, `JOINT_NONE` (0) through `JOINT_RIGHT_FOOT` (24). */
  predicate IsDeclared(j: JointType) {
    0 <= j.repr < 25
  }

  /** `Serialize for JointType`: the joint's camelCase name, or `"unknown"` for an undeclared representation. */
  function Serialize(j: JointType): (name: string)
    ensures !IsDeclared(j) <==> name == "unknown"
  {
    match j.repr
    case 0 => "none"
    case 1 => "head"
    case 2 => "neck"
    case 3 => "torso"
    case 4 => "waist"
    case 5 => "leftCollar"
    case 6 => "leftShoulder"
    case 7 => "leftElbow"
    case 8 => "leftWrist"
    case 9 => "leftHand"
    case 10 => "leftFingertip"
    case 11 => "rightCollar"
    case 12 => "rightShoulder"
    case 13 => "rightElbow"
    case 14 => "rightWrist"
    case 15 => "rightHand"
    case 16 => "rightFingertip"
    case 17 => "leftHip"
    case 18 => "leftKnee"
    case 19 => "leftAnkle"
    case 20 => "leftFoot"
    case 21 => "rightHip"
    case 22 => "rightKnee"
    case 23 => "rightAnkle"
    case 24 => "rightFoot"
    case _ => "unknown"
  }

  /**
    `Deserialize for JointType`: exact, case-sensitive matching of the 25
    names; anything else is serde's unknown-variant error.
   */
  function Deserialize(s: string): (r: Result<JointType, string>)
    ensures r.Ok? ==> IsDeclared(r.value) && IsI32(r.value.repr) && Serialize(r.value) == s
    ensures r.Err? ==> r.error == "unknown variant `" + s + "`, expected one of `head`, `neck`, `...`"
  {
    match s
    case "none" => Ok(JointType(0))
    case "head" => Ok(JointType(1))
    case "neck" => Ok(JointType(2))
    case "torso" => Ok(JointType(3))
    case "waist" => Ok(JointType(4))
    case "leftCollar" => Ok(JointType(5))
    case "leftShoulder" => Ok(JointType(6))
    case "leftElbow" => Ok(JointType(7))
    case "leftWrist" => Ok(JointType(8))
    case "leftHand" => Ok(JointType(9))
    case "leftFingertip" => Ok(JointType(10))
    case "rightCollar" => Ok(JointType(11))
    case "rightShoulder" => Ok(JointType(12))
    case "rightElbow" => Ok(JointType(13))
    case "rightWrist" => Ok(JointType(14))
    case "rightHand" => Ok(JointType(15))
    case "rightFingertip" => Ok(JointType(16))
    case "leftHip" => Ok(JointType(17))
    case "leftKnee" => Ok(JointType(18))
    case "leftAnkle" => Ok(JointType(19))
    case "leftFoot" => Ok(JointType(20))
    case "rightHip" => Ok(JointType(21))
    case "rightKnee" => Ok(JointType(22))
    case "rightAnkle" => Ok(JointType(23))
    case "rightFoot" => Ok(JointType(24))
    case _ => Err("unknown variant `" + s + "`, expected one of `head`, `neck`, `...`")
  }

  /** The round trip for `none` and the head, neck, torso and waist. */
  lemma RoundTripTrunk(n: int)
    requires 0 <= n < 5
    ensures Deserialize(Serialize(JointType(n))) == Ok(JointType(n))
  {
    if n == 0 {
      assert JointType(n) == JointType(0);
      assert Serialize(JointType(0)) == "none";
      assert Deserialize("none") == Ok(JointType(0));
    } else if n == 1 {
      assert JointType(n) == JointType(1);
      assert Serialize(JointType(1)) == "head";
      assert Deserialize("head") == Ok(JointType(1));
    } else if n == 2 {
      assert JointType(n) == JointType(2);
      assert Serialize(JointType(2)) == "neck";
      assert Deserialize("neck") == Ok(JointType(2));
    } else if n == 3 {
      assert JointType(n) == JointType(3);
      assert Serialize(JointType(3)) == "torso";
      assert Deserialize("torso") == Ok(JointType(3));
    } else {
      assert JointType(n) == JointType(4);
      assert Serialize(JointType(4)) == "waist";
      assert Deserialize("waist") == Ok(JointType(4));
    }
  }

  /** The round trip for the left collar, shoulder and elbow. */
  lemma RoundTripLeftArm(n: int)
    requires 5 <= n < 8
    ensures Deserialize(Serialize(JointType(n))) == Ok(JointType(n))
  {
    if n == 5 {
      assert JointType(n) == JointType(5);
      assert Serialize(JointType(5)) == "leftCollar";
      assert Deserialize("leftCollar") == Ok(JointType(5));
    } else if n == 6 {
      assert JointType(n) == JointType(6);
      assert Serialize(JointType(6)) == "leftShoulder";
      assert Deserialize("leftShoulder") == Ok(JointType(6));
    } else {
      assert JointType(n) == JointType(7);
      assert Serialize(JointType(7)) == "leftElbow";
      assert Deserialize("leftElbow") == Ok(JointType(7));
    }
  }

  /** The round trip for the left wrist, hand and fingertip. */
  lemma RoundTripLeftHand(n: int)
    requires 8 <= n < 11
    ensures Deserialize(Serialize(JointType(n))) == Ok(JointType(n))
  {
    if n == 8 {
      assert JointType(n) == JointType(8);
      assert Serialize(JointType(8)) == "leftWrist";
      assert Deserialize("leftWrist") == Ok(JointType(8));
    } else if n == 9 {
      assert JointType(n) == JointType(9);
      assert Serialize(JointType(9)) == "leftHand";
      assert Deserialize("leftHand") == Ok(JointType(9));
    } else {
      assert JointType(n) == JointType(10);
      assert Serialize(JointType(10)) == "leftFingertip";
      assert Deserialize("leftFingertip") == Ok(JointType(10));
    }
  }

  /** The round trip for the right collar, shoulder and elbow. */
  lemma RoundTripRightArm(n: int)
    requires 11 <= n < 14
    ensures Deserialize(Serialize(JointType(n))) == Ok(JointType(n))
  {
    if n == 11 {
      assert JointType(n) == JointType(11);
      assert Serialize(JointType(11)) == "rightCollar";
      assert Deserialize("rightCollar") == Ok(JointType(11));
    } else if n == 12 {
      assert JointType(n) == JointType(12);
      assert Serialize(JointType(12)) == "rightShoulder";
      assert Deserialize("rightShoulder") == Ok(JointType(12));
    } else {
      assert JointType(n) == JointType(13);
      assert Serialize(JointType(13)) == "rightElbow";
      assert Deserialize("rightElbow") == Ok(JointType(13));
    }
  }

  /** The round trip for the right wrist, hand and fingertip. */
  lemma RoundTripRightHand(n: int)
    requires 14 <= n < 17
    ensures Deserialize(Serialize(JointType(n))) == Ok(JointType(n))
  {
    if n == 14 {
      assert JointType(n) == JointType(14);
      assert Serialize(JointType(14)) == "rightWrist";
      assert Deserialize("rightWrist") == Ok(JointType(14));
    } else if n == 15 {
      assert JointType(n) == JointType(15);
      assert Serialize(JointType(15)) == "rightHand";
      assert Deserialize("rightHand") == Ok(JointType(15));
    } else {
      assert JointType(n) == JointType(16);
      assert Serialize(JointType(16)) == "rightFingertip";
      assert Deserialize("rightFingertip") == Ok(JointType(16));
    }
  }

  /** The round trip for the left hip, knee, ankle and foot. */
  lemma RoundTripLeftLeg(n: int)
    requires 17 <= n < 21
    ensures Deserialize(Serialize(JointType(n))) == Ok(JointType(n))
  {
    if n == 17 {
      assert JointType(n) == JointType(17);
      assert Serialize(JointType(17)) == "leftHip";
      assert Deserialize("leftHip") == Ok(JointType(17));
    } else if n == 18 {
      assert JointType(n) == JointType(18);
      assert Serialize(JointType(18)) == "leftKnee";
      assert Deserialize("leftKnee") == Ok(JointType(18));
    } else if n == 19 {
      assert JointType(n) == JointType(19);
      assert Serialize(JointType(19)) == "leftAnkle";
      assert Deserialize("leftAnkle") == Ok(JointType(19));
    } else {
      assert JointType(n) == JointType(20);
      assert Serialize(JointType(20)) == "leftFoot";
      assert Deserialize("leftFoot") == Ok(JointType(20));
    }
  }

  /** The round trip for the right hip and knee. */
  lemma RoundTripRightLeg(n: int)
    requires 21 <= n < 23
    ensures Deserialize(Serialize(JointType(n))) == Ok(JointType(n))
  {
    if n == 21 {
      assert JointType(n) == JointType(21);
      assert Serialize(JointType(21)) == "rightHip";
      assert Deserialize("rightHip") == Ok(JointType(21));
    } else {
      assert JointType(n) == JointType(22);
      assert Serialize(JointType(22)) == "rightKnee";
      assert Deserialize("rightKnee") == Ok(JointType(22));
    }
  }

  /** The round trip for the right ankle and foot. */
  lemma RoundTripRightFoot(n: int)
    requires 23 <= n < 25
    ensures Deserialize(Serialize(JointType(n))) == Ok(JointType(n))
  {
    if n == 23 {
      assert JointType(n) == JointType(23);
      assert Serialize(JointType(23)) == "rightAnkle";
      assert Deserialize("rightAnkle") == Ok(JointType(23));
    } else {
      assert JointType(n) == JointType(24);
      assert Serialize(JointType(24)) == "rightFoot";
      assert Deserialize("rightFoot") == Ok(JointType(24));
    }
  }

  /** Every declared joint survives a serialize/deserialize round trip. */
  lemma RoundTrip(j: JointType)
    requires IsDeclared(j)
    ensures Deserialize(Serialize(j)) == Ok(j)
  {
    var n := j.repr;
    if n < 5 {
      RoundTripTrunk(n);
    } else if n < 8 {
      RoundTripLeftArm(n);
    } else if n < 11 {
      RoundTripLeftHand(n);
    } else if n < 14 {
      RoundTripRightArm(n);
    } else if n < 17 {
      RoundTripRightHand(n);
    } else if n < 21 {
      RoundTripLeftLeg(n);
    } else if n < 23 {
      RoundTripRightLeg(n);
    } else {
      RoundTripRightFoot(n);
    }
  }

  /** The deserializer accepts exactly the names of declared joints, and gives back the joint with that name. */
  lemma AcceptsExactlyTheNames(s: string)
    ensures Deserialize(s).Ok? <==> exists j :: IsDeclared(j) && Serialize(j) == s
    ensures Deserialize(s).Ok? ==> Serialize(Deserialize(s).value) == s
  {
    if j :| IsDeclared(j) && Serialize(j) == s {
      RoundTrip(j);
    }
  }

  /** Distinct declared joints get distinct names. */
  lemma NamesDistinguish(a: JointType, b: JointType)
    requires IsDeclared(a) && IsDeclared(b) && a != b
    ensures Serialize(a) != Serialize(b)
  {
    RoundTrip(a);
    RoundTrip(b);
  }

  /**
    An undeclared representation is written as `"unknown"`, which does not
    read back: serialization of such a value cannot be inverted.
   */
  lemma UndeclaredIsLossy(j: JointType)
    requires !IsDeclared(j)
    ensures Serialize(j) == "unknown" && Deserialize(Serialize(j)).Err?
  {
  }
}
