/**
 * `com.testdroid.jenkins.plugins.devicesessions.DeviceFilter`: the older filter, an
 * immutable pair naming a label group of the device farm (`label`) and a
 * label inside it (`value`) that a device must carry.
 */
module DeviceSessionsFilter {
  import opened Remote
  import FilterText

  /**
   * Both fields are final and stored as given: a datatype value never
   * changes. `labelGroup` is the Java field `label` (a Dafny keyword).
   */
  datatype DeviceFilter = DeviceFilter(labelGroup: string, value: string)

  /** `toString`: `[DeviceFilter: label=<label>, value=<value>]`. */
  function ToString(f: DeviceFilter): string {
    FilterText.Render("label", f.labelGroup, "value", f.value)
  }

  /** Reads a filter back from its text form. */
  function FromString(s: string): Option<DeviceFilter> {
    match FilterText.Parse(s, "label", "value") {
      case None => None
      case Some((l, v)) => Some(DeviceFilter(l, v))
    }
  }

  /** The text form determines the filter as long as the label group name has no comma. */
  lemma ToStringRoundTrip(f: DeviceFilter)
    requires forall i :: 0 <= i < |f.labelGroup| ==> f.labelGroup[i] != ','
    ensures FromString(ToString(f)) == Some(f)
  {
    FilterText.ParseRender("label", f.labelGroup, "value", f.value);
  }

  /** A comma in the label group name lets two different filters print alike. */
  lemma ToStringAmbiguous()
    ensures ToString(DeviceFilter("a, value=b", "c")) == ToString(DeviceFilter("a", "b, value=c"))
    ensures DeviceFilter("a, value=b", "c") != DeviceFilter("a", "b, value=c")
  {
    FilterText.RenderNotInjective("label", "value");
    assert FilterText.Separator("value") == ", value=";
  }
}
