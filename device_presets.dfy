/** public/DevicePresets.js: the table of device presets, lookup by name with
    a default, the viewport meta content, and the media query written for a
    device in an orientation. Also the orientation swap that the preview
    components and the CSS generator apply to a device's size. */
module DevicePresets {
  import opened Text

  /** A device of the table: its name and its CSS-pixel size. The icon,
      description and pixel ratio are display data. */
  datatype Device = Device(name: string, width: int, height: int)

  datatype Size = Size(width: int, height: int)

  /** The orientations the components keep in their state. */
  datatype Orientation = Portrait | Landscape

  function SizeOf(d: Device): Size {
    Size(d.width, d.height)
  }

  /** Switching orientation, as the toggle buttons do. */
  function Flip(o: Orientation): (r: Orientation)
    ensures r != o
  {
    if o == Portrait then Landscape else Portrait
  }

  /** The size shown in an orientation: portrait keeps (width, height),
      landscape swaps them. */
  function Oriented(s: Size, o: Orientation): (r: Size)
    ensures r.width == (if o == Portrait then s.width else s.height)
    ensures r.height == (if o == Portrait then s.height else s.width)
  {
    if o == Portrait then s else Size(s.height, s.width)
  }

  /** Toggling twice gives back the orientation, and the size shown after a
      toggle is the previous one with width and height exchanged. */
  lemma FlipOriented(s: Size, o: Orientation)
    ensures Flip(Flip(o)) == o
    ensures Oriented(s, Flip(o)) == Size(Oriented(s, o).height, Oriented(s, o).width)
    ensures Oriented(Oriented(s, o), o) == s
  {
  }

  /** DEVICE_PRESETS, in table order. */
  const Presets: seq<Device> := [
    Device("Mobile S", 320, 568),
    Device("Mobile M", 375, 667),
    Device("Mobile L", 425, 812),
    Device("iPhone X/11/12", 375, 812),
    Device("iPhone 13/14 Pro", 390, 844),
    Device("Pixel 6/7", 393, 851),
    Device("Samsung S21/S22", 360, 800),
    Device("iPad", 768, 1024),
    Device("iPad Pro", 834, 1194),
    Device("Laptop", 1366, 768),
    Device("Desktop", 1920, 1080)
  ]

  /** The table has eleven devices with pairwise distinct names and positive
      sizes; index 2 is "Mobile L", 425 by 812. */
  lemma PresetsWellFormed()
    ensures |Presets| == 11
    ensures forall i, j :: 0 <= i < j < |Presets| ==> Presets[i].name != Presets[j].name
    ensures forall i :: 0 <= i < |Presets| ==> Presets[i].width > 0 && Presets[i].height > 0
    ensures Presets[2] == Device("Mobile L", 425, 812)
  {
  }

  /** Array.prototype.find by name, as an index: the first device from `i`
      on whose name equals `name`. */
  function FindByName(devices: seq<Device>, name: string, i: nat): (r: Option<nat>)
    requires i <= |devices|
    decreases |devices| - i
    ensures r.Some? ==> i <= r.value < |devices| && devices[r.value].name == name
    ensures r.Some? ==> forall j :: i <= j < r.value ==> devices[j].name != name
    ensures r.None? ==> forall j :: i <= j < |devices| ==> devices[j].name != name
  {
    if i == |devices| then None
    else if devices[i].name == name then Some(i)
    else FindByName(devices, name, i + 1)
  }

  /** getDeviceByName: the first preset with exactly that name, or the
      preset at index 2 when there is none; always a member of the table. */
  function GetDeviceByName(name: string): (d: Device)
    ensures d in Presets
    ensures (exists i :: 0 <= i < |Presets| && Presets[i].name == name) ==> d.name == name
    ensures (forall i :: 0 <= i < |Presets| ==> Presets[i].name != name) ==> d == Presets[2]
  {
    match FindByName(Presets, name, 0)
    case Some(i) => Presets[i]
    case None => Presets[2]
  }

  /** Looking a preset up by its own name gives that preset back. */
  lemma GetDeviceByNameOfPreset(i: nat)
    requires i < |Presets|
    ensures GetDeviceByName(Presets[i].name) == Presets[i]
  {
    PresetsWellFormed();
  }

  /** getViewportMetaForDevice: the same content whatever the device. */
  const ViewportContent: string :=
    DeviceWidth + ", initial-scale=1.0, viewport-fit=cover, maximum-scale=1.0"

  const DeviceWidth: string := "width=device-width"

  /** The content asks for the device width, so a page using it passes the
      preview's viewport test. */
  function GetViewportMetaForDevice(d: Device): (m: string)
    ensures Includes(m, DeviceWidth)
  {
    assert ViewportContent[0..|DeviceWidth|] == DeviceWidth;
    assert OccursAt(ViewportContent, DeviceWidth, 0);
    ViewportContent
  }

  const WidthLabel: string := "@media (max-width: "
  const HeightLabel: string := "px) and (max-height: "

  /** The orientation argument, which defaults to 'portrait' when it is not
      passed. */
  function OrientationArg(orientation: Option<string>): string {
    if orientation.None? then "portrait" else orientation.value
  }

  /** The size a media query is written for: the device's own for
      'portrait', exchanged for any other orientation string. */
  function QuerySize(d: Device, orientation: Option<string>): (s: Size)
    ensures OrientationArg(orientation) == "portrait" ==> s == SizeOf(d)
    ensures OrientationArg(orientation) != "portrait" ==> s == Size(d.height, d.width)
  {
    Oriented(SizeOf(d), if OrientationArg(orientation) == "portrait" then Portrait else Landscape)
  }

  /** generateMediaQueryForDevice. */
  function MediaQuery(d: Device, orientation: Option<string>): (q: string)
    ensures |q| > |WidthLabel| && q[..|WidthLabel|] == WidthLabel
    ensures q[|q| - 1] == '}'
  {
    var s := QuerySize(d, orientation);
    var body := QueryBody(d, orientation);
    var q := WidthLabel + NumberString(s.width) + HeightLabel + NumberString(s.height) + body;
    assert q[..|WidthLabel|] == WidthLabel;
    assert q[|q| - 1] == body[|body| - 1];
    q
  }

  /** The rest of the query after the height: the empty rule with its
      comment naming the device and the orientation. */
  function QueryBody(d: Device, orientation: Option<string>): (r: string)
    ensures |r| > 0 && r[0] == 'p' && r[|r| - 1] == '}'
  {
    var r := BodyLead + d.name + " in " + OrientationArg(orientation) + " mode */\n}";
    assert r[0] == BodyLead[0] && r[|r| - 1] == '}';
    r
  }

  const BodyLead: string := "px) {\n  /* Device-specific styles for "

  /** The rule's comment names the device and the orientation argument. */
  lemma QueryBodyNames(d: Device, orientation: Option<string>)
    ensures Contains(QueryBody(d, orientation), d.name)
    ensures Contains(QueryBody(d, orientation), OrientationArg(orientation))
  {
    var r, o := QueryBody(d, orientation), OrientationArg(orientation);
    assert OccursAt(r, d.name, |BodyLead|) by {
      assert r[|BodyLead|..|BodyLead| + |d.name|] == d.name;
    }
    assert OccursAt(r, o, |BodyLead| + |d.name| + 4) by {
      assert r[|BodyLead| + |d.name| + 4..|BodyLead| + |d.name| + 4 + |o|] == o;
    }
  }

  /** Reading the two limits back out of a media query: the digits after
      "@media (max-width: " and those after "px) and (max-height: ". */
  function ReadLimits(q: string): Option<Size> {
    var width := NumberAfter(q, WidthLabel);
    if width.None? then None
    else
      var height := NumberAfter(width.value.1, HeightLabel);
      if height.None? then None else Some(Size(width.value.0, height.value.0))
  }

  /** The decimal number that follows `lead` at the start of `s`, and what
      follows the number. */
  function NumberAfter(s: string, lead: string): Option<(int, string)> {
    if |s| < |lead| || s[..|lead|] != lead then None
    else
      var u := s[|lead|..];
      var k := DigitRun(u, 10);
      if k == 0 then None else Some((DigitsValue(u[..k], 10), u[k..]))
  }

  /** The query limits the device's size in the chosen orientation: reading
      its limits back gives that size. */
  lemma MediaQueryLimits(d: Device, orientation: Option<string>)
    requires d.width >= 0 && d.height >= 0
    ensures ReadLimits(MediaQuery(d, orientation)) == Some(QuerySize(d, orientation))
  {
    var s := QuerySize(d, orientation);
    var body := QueryBody(d, orientation);
    assert MediaQuery(d, orientation) == WidthLabel + DecimalString(s.width) + HeightLabel + DecimalString(s.height) + body;
    ReadLimitsOf(s.width, s.height, body);
  }

  /** The two labels with the digits of `w` and `h` after them, followed by
      text that does not start with a digit, read back as `w` and `h`. */
  lemma ReadLimitsOf(w: nat, h: nat, body: string)
    requires body == [] || !IsDecimalDigit(body[0])
    ensures ReadLimits(WidthLabel + DecimalString(w) + HeightLabel + DecimalString(h) + body) == Some(Size(w, h))
  {
    var ws, hs := DecimalString(w), DecimalString(h);
    assert WidthLabel + ws + HeightLabel + hs + body == WidthLabel + ws + (HeightLabel + hs + body);
    NumberAfterOf(WidthLabel, ws, HeightLabel + hs + body);
    NumberAfterOf(HeightLabel, hs, body);
  }

  lemma NumberAfterOf(lead: string, ds: string, tail: string)
    requires |ds| >= 1 && AllDigitsIn(ds, 10)
    requires tail == [] || !IsDecimalDigit(tail[0])
    ensures NumberAfter(lead + ds + tail, lead) == Some((DigitsValue(ds, 10), tail))
  {
    ConcatParts(lead, ds, tail);
    DigitRunOfConcat(ds, tail);
    NumberAfterIs(lead + ds + tail, lead, ds + tail);
  }

  lemma ConcatParts(lead: string, ds: string, tail: string)
    ensures (lead + ds + tail)[..|lead|] == lead && (lead + ds + tail)[|lead|..] == ds + tail
    ensures (ds + tail)[..|ds|] == ds && (ds + tail)[|ds|..] == tail
  {
  }

  lemma NumberAfterIs(s: string, lead: string, u: string)
    requires |lead| <= |s| && s[..|lead|] == lead && s[|lead|..] == u && DigitRun(u, 10) > 0
    ensures NumberAfter(s, lead) == Some((DigitsValue(u[..DigitRun(u, 10)], 10), u[DigitRun(u, 10)..]))
  {
  }

  /** Leaving the orientation out is passing 'portrait'; any other string
      than 'portrait' gives the landscape size. */
  lemma MediaQueryOrientation(d: Device, other: string)
    requires other != "portrait"
    ensures MediaQuery(d, None) == MediaQuery(d, Some("portrait"))
    ensures QuerySize(d, Some(other)) == Oriented(SizeOf(d), Landscape)
  {
  }
}
