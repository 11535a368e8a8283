/**
 * `jenkins.plugins.testdroid.DeviceFilter`: an immutable pair naming a label
 * group of the device farm and a label inside it that a device must carry.
 */
module TestdroidFilter {
  import opened Remote
  import FilterText

  /**
   * Both fields are final and stored as given: a datatype value never
   * changes. `labelName` is the Java field `label` (a Dafny keyword).
   */
  datatype DeviceFilter = DeviceFilter(group: string, labelName: string)

  /** `toString`: `[DeviceFilter: group=<group>, label=<label>]`. */
  function ToString(f: DeviceFilter): string {
    FilterText.Render("group", f.group, "label", f.labelName)
  }

  /** Reads a filter back from its text form. */
  function FromString(s: string): Option<DeviceFilter> {
    match FilterText.Parse(s, "group", "label") {
      case None => None
      case Some((g, l)) => Some(DeviceFilter(g, l))
    }
  }

  /** The text form determines the filter as long as the group name has no comma. */
  lemma ToStringRoundTrip(f: DeviceFilter)
    requires forall i :: 0 <= i < |f.group| ==> f.group[i] != ','
    ensures FromString(ToString(f)) == Some(f)
  {
    FilterText.ParseRender("group", f.group, "label", f.labelName);
  }

  /** A comma in the group name lets two different filters print alike. */
  lemma ToStringAmbiguous()
    ensures ToString(DeviceFilter("a, label=b", "c")) == ToString(DeviceFilter("a", "b, label=c"))
    ensures DeviceFilter("a, label=b", "c") != DeviceFilter("a", "b, label=c")
  {
    FilterText.RenderNotInjective("group", "label");
    assert FilterText.Separator("label") == ", label=";
  }
}
