/**
 * get_custom_icon: the marker icon of a round angle, an image URL that
 * names the angle plus a fixed 38 x 38 size. correction/utils.py and the
 * root utils.py build it for any angle; better_app/utils.py first rejects
 * every angle outside the 24 round angles with a ValueError.
 */
module Icons {
  import opened Records
  import opened Decimal
  import Quantize

  const IconUrlPrefix := "https://github.com/tomseimandi/flightradar/blob/main/img/plane_"
  const IconUrlSuffix := ".png?raw=true"
  const IconSide := 38

  /** The dict `{iconUrl, iconSize}`. */
  datatype Icon = Icon(iconUrl: string, iconSize: seq<int>)

  /** The angles better_app's get_custom_icon accepts, as it lists them. */
  const AcceptedAngles: seq<int> := [
    0, 15, 30, 45, 60, 75, 90, 105, 120, 135, 150, 165, 180,
    195, 210, 225, 240, 255, 270, 285, 300, 315, 330, 345
  ]

  const InvalidAngleMessage :=
    "The round angle provided is not valid. "
    + "Use the `get_closest_round_angle` function to get a valid angle."

  /** The accepted angles are exactly the multiples of 15 in [0, 345]. */
  lemma AcceptedAnglesAreRoundAngles(angle: int)
    ensures angle in AcceptedAngles <==> 0 <= angle <= 345 && angle % 15 == 0
  {
    assert AcceptedAngles == seq(24, i => 15 * i);
    if 0 <= angle <= 345 && angle % 15 == 0 {
      assert AcceptedAngles[angle / 15] == angle;
    }
  }

  /** Reads the angle back out of an icon URL. */
  function ParseIconUrl(url: string): Option<int> {
    var p, q := |IconUrlPrefix|, |IconUrlSuffix|;
    if |url| >= p + q && url[..p] == IconUrlPrefix && url[|url| - q..] == IconUrlSuffix
    then ParseInt(url[p..|url| - q])
    else None
  }

  /** `.../plane_{round_angle}.png?raw=true`: the angle is written in
      decimal between a fixed prefix and suffix, so the URL names exactly
      one angle, and in str's own form, so no other spelling of it (a
      leading zero, "-0") can come out. */
  function IconUrl(roundAngle: int): (url: string)
    ensures url == IconUrlPrefix + IntToDecimal(roundAngle) + IconUrlSuffix
    ensures ParseIconUrl(url) == Some(roundAngle)
  {
    var digits := IntToDecimal(roundAngle);
    var url := IconUrlPrefix + digits + IconUrlSuffix;
    assert url[..|IconUrlPrefix|] == IconUrlPrefix;
    assert url[|url| - |IconUrlSuffix|..] == IconUrlSuffix;
    assert url[|IconUrlPrefix|..|url| - |IconUrlSuffix|] == digits;
    DecimalRoundTrip(roundAngle);
    url
  }

  /** The only URL of the icon form, with the angle spelled as str spells
      ints, that names roundAngle is IconUrl(roundAngle). */
  lemma {:induction false} IconUrlIsUnique(middle: string, roundAngle: int)
    requires IsIntDecimal(middle)
    requires ParseIconUrl(IconUrlPrefix + middle + IconUrlSuffix) == Some(roundAngle)
    ensures IconUrlPrefix + middle + IconUrlSuffix == IconUrl(roundAngle)
  {
    var url := IconUrlPrefix + middle + IconUrlSuffix;
    assert url[..|IconUrlPrefix|] == IconUrlPrefix;
    assert url[|url| - |IconUrlSuffix|..] == IconUrlSuffix;
    assert url[|IconUrlPrefix|..|url| - |IconUrlSuffix|] == middle;
    DecimalIsUnique(middle, roundAngle);
  }

  /** get_custom_icon without validation (correction/, root utils.py):
      every int gets an icon of size [38, 38] whose URL names that int. */
  function CustomIcon(roundAngle: int): (icon: Icon)
    ensures icon.iconSize == [38, 38]
    ensures icon.iconUrl == IconUrlPrefix + IntToDecimal(roundAngle) + IconUrlSuffix
    ensures ParseIconUrl(icon.iconUrl) == Some(roundAngle)
  {
    Icon(IconUrl(roundAngle), [IconSide, IconSide])
  }

  /** get_custom_icon with validation (better_app/): a ValueError for every
      angle that is not a multiple of 15 in [0, 345], otherwise the same
      icon as the unvalidated variant. */
  function CheckedCustomIcon(roundAngle: int): (r: Result<Icon>)
    ensures r.Ok? <==> 0 <= roundAngle <= 345 && roundAngle % 15 == 0
    ensures r.Ok? ==> r.value == CustomIcon(roundAngle)
    ensures r.Err? ==> r.error == ValueError(InvalidAngleMessage)
  {
    AcceptedAnglesAreRoundAngles(roundAngle);
    if roundAngle !in AcceptedAngles then Err(ValueError(InvalidAngleMessage))
    else Ok(CustomIcon(roundAngle))
  }

  /** The pairing the error message asks for never raises: every output of
      get_closest_round_angle is accepted. */
  lemma QuantizedAnglesAreAccepted(angle: real)
    ensures CheckedCustomIcon(Quantize.ClosestRoundAngle(angle))
            == Ok(CustomIcon(Quantize.ClosestRoundAngle(angle)))
  {
  }
}
