/**
 * `writeDeviceDataJSON`: the device's labels written to the workspace as one
 * JSON object with an entry per label group. A group with one label maps to
 * that label, a group with several maps to the list of its labels in the
 * order the farm returned them.
 */
module DeviceData {
  import opened Remote
  import opened JavaText

  /** A label (device property) of a device, with the name of its label group. */
  datatype Property = Property(groupName: string, displayName: string)

  /** The value of one entry of the JSON object. */
  datatype LabelValue = Single(name: string) | Many(names: seq<string>)

  /** The labels an entry holds: the entry itself when it is not a list. */
  function Values(v: LabelValue): (r: seq<string>)
    ensures v.Single? ==> r == [v.name]
    ensures v.Many? ==> r == v.names
  {
    match v
    case Single(l) => [l]
    case Many(ls) => ls
  }

  /** The entry for a group with the given labels. */
  function Entry(labels: seq<string>): (v: LabelValue)
    ensures labels != [] ==> Values(v) == labels
    ensures v.Single? <==> |labels| == 1
  {
    if |labels| == 1 then Single(labels[0]) else Many(labels)
  }

  // ---------------------------------------------------------------------
  // Reference definition of the document

  /** The labels of the properties whose group has key `g`, in the order given. */
  function LabelsOf(props: seq<Property>, key: string -> string, g: string): seq<string> {
    if props == [] then []
    else
      var p := props[|props| - 1];
      LabelsOf(props[..|props| - 1], key, g) + (if key(p.groupName) == g then [p.displayName] else [])
  }

  function GroupKeys(props: seq<Property>, key: string -> string): set<string> {
    set i | 0 <= i < |props| :: key(props[i].groupName)
  }

  /** The JSON object: one entry per group key, holding that group's labels. */
  function Document(props: seq<Property>, key: string -> string): map<string, LabelValue> {
    map g | g in GroupKeys(props, key) :: Entry(LabelsOf(props, key, g))
  }

  /** A key has labels exactly when some property carries it. */
  lemma {:induction false} LabelsOfNonEmpty(props: seq<Property>, key: string -> string, g: string)
    ensures LabelsOf(props, key, g) != [] <==> g in GroupKeys(props, key)
  {
    if props != [] {
      var init := props[..|props| - 1];
      LabelsOfNonEmpty(init, key, g);
      assert forall i :: 0 <= i < |init| ==> init[i] == props[i];
      assert GroupKeys(props, key) == GroupKeys(init, key) + {key(props[|props| - 1].groupName)};
    }
  }

  /** Every label of the device appears, in the entry of its group. */
  lemma {:induction false} EveryLabelRecorded(props: seq<Property>, key: string -> string, i: nat)
    requires i < |props|
    ensures props[i].displayName in LabelsOf(props, key, key(props[i].groupName))
  {
    var init := props[..|props| - 1];
    if i < |props| - 1 {
      EveryLabelRecorded(init, key, i);
    }
  }

  /** Every label in an entry belongs to a property of that group. */
  lemma {:induction false} OnlyGroupLabels(props: seq<Property>, key: string -> string, g: string, l: string)
    requires l in LabelsOf(props, key, g)
    ensures exists i :: 0 <= i < |props| && key(props[i].groupName) == g && props[i].displayName == l
  {
    var init := props[..|props| - 1];
    if l in LabelsOf(init, key, g) {
      OnlyGroupLabels(init, key, g, l);
      var i :| 0 <= i < |init| && key(init[i].groupName) == g && init[i].displayName == l;
      assert props[i] == init[i];
    } else {
      var last := props[|props| - 1];
      var tail := if key(last.groupName) == g then [last.displayName] else [];
      assert LabelsOf(props, key, g) == LabelsOf(init, key, g) + tail;
      assert l in tail;
      assert key(last.groupName) == g && last.displayName == l;
    }
  }

  /** The document's entries are the groups of the properties, each with its labels. */
  lemma DocumentEntries(props: seq<Property>, key: string -> string, g: string)
    ensures g in Document(props, key) <==> exists i :: 0 <= i < |props| && key(props[i].groupName) == g
    ensures g in Document(props, key) ==> Values(Document(props, key)[g]) == LabelsOf(props, key, g)
  {
    LabelsOfNonEmpty(props, key, g);
  }

  lemma GroupKeysStep(props: seq<Property>, p: Property, key: string -> string)
    ensures GroupKeys(props + [p], key) == GroupKeys(props, key) + {key(p.groupName)}
  {
    var ps := props + [p];
    assert forall i :: 0 <= i < |props| ==> ps[i] == props[i];
    forall x | x in GroupKeys(ps, key)
      ensures x in GroupKeys(props, key) + {key(p.groupName)}
    {
      var i :| 0 <= i < |ps| && x == key(ps[i].groupName);
      if i < |props| {
        assert x == key(props[i].groupName);
      }
    }
    assert ps[|props|] == p;
  }

  lemma DocumentStep(props: seq<Property>, p: Property, key: string -> string)
    ensures var k := key(p.groupName);
      Document(props + [p], key) ==
        Document(props, key)[k := Entry(LabelsOf(props, key, k) + [p.displayName])]
  {
    var k := key(p.groupName);
    var after := Document(props + [p], key);
    var rhs := Document(props, key)[k := Entry(LabelsOf(props, key, k) + [p.displayName])];
    GroupKeysStep(props, p, key);
    assert after.Keys == rhs.Keys;
    forall g | g in after
      ensures after[g] == rhs[g]
    {
      DocumentStepAt(props, p, key, g);
    }
  }

  lemma DocumentStepAt(props: seq<Property>, p: Property, key: string -> string, g: string)
    requires g in GroupKeys(props + [p], key)
    ensures var k := key(p.groupName);
      Document(props + [p], key)[g] ==
        Document(props, key)[k := Entry(LabelsOf(props, key, k) + [p.displayName])][g]
  {
    LabelsOfStep(props, p, key, g);
    GroupKeysStep(props, p, key);
  }

  lemma LabelsOfStep(props: seq<Property>, p: Property, key: string -> string, g: string)
    ensures LabelsOf(props + [p], key, g) ==
      LabelsOf(props, key, g) + (if key(p.groupName) == g then [p.displayName] else [])
  {
    assert (props + [p])[..|props|] == props;
  }

  // ---------------------------------------------------------------------
  // The loop of writeDeviceDataJSON

  /** The loop over the properties: a new group gets the label, a known group a list. */
  method FoldLabels(props: seq<Property>, key: string -> string) returns (obj: map<string, LabelValue>)
    ensures obj == Document(props, key)
  {
    obj := map[];
    for i := 0 to |props|
      invariant obj == Document(props[..i], key)
    {
      var p := props[i];
      var g := key(p.groupName);
      LabelsOfNonEmpty(props[..i], key, g);
      DocumentStep(props[..i], p, key);
      assert props[..i + 1] == props[..i] + [p];
      if g in obj {
        obj := obj[g := Many(Values(obj[g]) + [p.displayName])];
      } else {
        obj := obj[g := Single(p.displayName)];
      }
    }
    assert props[..|props|] == props;
  }

  /**
   * What the device-data step can meet: the answer of the properties request
   * (an empty list also stands for a null answer), and the failure of the
   * workspace write when it fails.
   */
  datatype DataIo = DataIo(properties: Outcome<seq<Property>>, writeError: Option<Failure>)

  /**
   * Returns the document written, or None when nothing is written: the
   * device has no labels, or the properties request raised an APIException,
   * which is logged and swallowed. A failing write propagates.
   */
  method WriteDeviceDataJSON(io: DataIo, key: string -> string) returns (r: Outcome<Option<map<string, LabelValue>>>)
    requires io.properties.Fail? ==> io.properties.error.ApiFailure?
    ensures io.properties.Fail? || io.properties == Ok([]) ==> r == Ok(None)
    ensures io.properties.Ok? && io.properties.value != [] && io.writeError.Some? ==> r == Fail(io.writeError.value)
    ensures io.properties.Ok? && io.properties.value != [] && io.writeError.None? ==>
      r == Ok(Some(Document(io.properties.value, key)))
  {
    match io.properties {
      case Fail(_) =>
        return Ok(None);
      case Ok(props) =>
        if props == [] {
          return Ok(None);
        }
        var obj := FoldLabels(props, key);
        if io.writeError.Some? {
          return Fail(io.writeError.value);
        }
        return Ok(Some(obj));
    }
  }

  // ---------------------------------------------------------------------
  // Group keys

  /** The current key of a group: lower case, spaces replaced by underscores. */
  function NormalizedGroupName(g: string): (k: string)
    ensures |k| == |g|
    ensures forall i :: 0 <= i < |k| ==> k[i] != ' ' && !AsciiUpper(k[i])
    ensures forall i :: 0 <= i < |g| ==> k[i] == if g[i] == ' ' then '_' else LowerChar(g[i])
  {
    ReplaceChar(ToLowerCase(g), ' ', '_')
  }

  /** Normalising a key again changes nothing. */
  lemma NormalizedGroupNameIdempotent(g: string)
    ensures NormalizedGroupName(NormalizedGroupName(g)) == NormalizedGroupName(g)
  {
    var k := NormalizedGroupName(g);
    assert forall i :: 0 <= i < |k| ==> LowerChar(k[i]) == k[i];
  }

  /** Groups that differ only in case and in spaces versus underscores share one entry. */
  lemma NormalizedGroupNameMerges(g: string, h: string)
    requires |g| == |h|
    requires forall i :: 0 <= i < |g| ==> NormalizedGroupName([g[i]]) == NormalizedGroupName([h[i]])
    ensures NormalizedGroupName(g) == NormalizedGroupName(h)
  {
    forall i | 0 <= i < |g|
      ensures NormalizedGroupName(g)[i] == NormalizedGroupName(h)[i]
    {
      assert NormalizedGroupName([g[i]])[0] == NormalizedGroupName(g)[i];
      assert NormalizedGroupName([h[i]])[0] == NormalizedGroupName(h)[i];
    }
  }
}
