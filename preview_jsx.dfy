/** src/components/ResponsivePreview.jsx: the older preview component, with
    its own seven-device table. Its state is the chosen device or a custom
    size and the orientation; the custom inputs write 0 for what does not
    parse, and they do not switch custom mode on. */
module PreviewJsx {
  import opened Text
  import opened DevicePresets
  import Preview

  /** DEVICE_PRESETS of this component, in table order. */
  const JsxPresets: seq<Device> := [
    Device("Mobile S", 320, 568),
    Device("Mobile M", 375, 667),
    Device("Mobile L", 425, 812),
    Device("Tablet", 768, 1024),
    Device("Laptop", 1024, 768),
    Device("Laptop L", 1440, 900),
    Device("Desktop", 1920, 1080)
  ]

  /** The two inputs, by their `name` attribute. */
  datatype Field = Width | Height

  /** `parseInt(value, 10) || 0`. */
  function FieldValue(value: string): (n: int)
    ensures ParseInt(value, false).Some? ==> n == ParseInt(value, false).value
    ensures ParseInt(value, false).None? ==> n == 0
  {
    ParseIntOr(value, false, 0)
  }

  /** What does not parse gives 0, not the previous value; a number typed in
      is taken as it is. */
  lemma FieldValueExamples(n: nat)
    ensures FieldValue(DecimalString(n)) == n
    ensures FieldValue("") == 0
  {
    ParseDecimalString(n, false);
    ParseIntOrExamples(1, false, 0);
  }

  class PreviewJsx {
    var selectedDevice: Device
    var customSize: Size
    var isCustom: bool
    var orientation: Orientation

    /** The size the iframe is given: the same getIframeDimensions as in
        public/ResponsivePreview.js. */
    function Dimensions(): Size
      reads this
    {
      Preview.IframeDimensions(selectedDevice, customSize, isCustom, orientation)
    }

    constructor()
      ensures selectedDevice == JsxPresets[2] && selectedDevice == Device("Mobile L", 425, 812)
      ensures customSize == Size(425, 812) && !isCustom && orientation == Portrait
      ensures Dimensions() == Size(425, 812)
    {
      selectedDevice := JsxPresets[2];
      customSize := Size(425, 812);
      isCustom := false;
      orientation := Portrait;
    }

    /** handleDeviceChange: the device, upright, out of custom mode. */
    method HandleDeviceChange(device: Device)
      modifies this
      ensures selectedDevice == device && !isCustom && orientation == Portrait
      ensures customSize == old(customSize)
      ensures Dimensions() == SizeOf(device)
    {
      selectedDevice := device;
      isCustom := false;
      orientation := Portrait;
    }

    /** handleCustomSizeChange: only the field named by the input changes,
        to `parseInt(value, 10) || 0`; custom mode, the orientation and the
        device stay as they were. */
    method HandleCustomSizeChange(name: Field, value: string)
      modifies this
      ensures name == Width ==> customSize == Size(FieldValue(value), old(customSize).height)
      ensures name == Height ==> customSize == Size(old(customSize).width, FieldValue(value))
      ensures isCustom == old(isCustom) && orientation == old(orientation)
      ensures selectedDevice == old(selectedDevice)
    {
      var n := ParseIntOr(value, false, 0);
      match name {
        case Width => customSize := customSize.(width := n);
        case Height => customSize := customSize.(height := n);
      }
    }

    /** toggleOrientation: the other orientation, which exchanges the
        iframe's width and height. */
    method ToggleOrientation()
      modifies this
      ensures orientation == Flip(old(orientation))
      ensures Dimensions() == Size(old(Dimensions()).height, old(Dimensions()).width)
      ensures selectedDevice == old(selectedDevice) && customSize == old(customSize) && isCustom == old(isCustom)
    {
      Preview.DimensionsAfterToggle(selectedDevice, customSize, isCustom, orientation);
      orientation := if orientation == Portrait then Landscape else Portrait;
    }

    /** The "Custom" button. */
    method SelectCustom()
      modifies this
      ensures isCustom && Dimensions() == Oriented(customSize, orientation)
      ensures selectedDevice == old(selectedDevice) && customSize == old(customSize)
      ensures orientation == old(orientation)
    {
      isCustom := true;
    }
  }
}
