/**
 * Constants and small helpers that the two generations of the device session
 * build wrapper share word for word.
 */
module WrapperCommon {
  import opened Remote
  import opened JavaText

  /** The label group holding one label per flashed build. */
  const BuildIdentifierLabelGroup: string := "Build Identifier"
  /** The farm project that flashes a device. */
  const FlashProjectName: string := "flash-fxos"
  /** Run parameter carrying the location of the build to flash. */
  const BuildUrlParam: string := "FLAME_ZIP_URL"
  /** Run parameter carrying the memory to allocate. */
  const MemTotalParam: string := "MEM_TOTAL"
  /** Milliseconds a flash run may take. */
  const FlashTimeout: nat := 10 * 60 * 1000
  const FlashRetries: nat := 3
  /** Milliseconds the proxy lookup keeps polling. */
  const WaitForProxyTimeout: nat := 5 * 60 * 1000
  const PollInterval: nat := 10 * 1000

  /** `getMemTotal`: the configured memory, or "0" when none is configured. */
  function GetMemTotal(memTotal: Option<string>): string {
    if memTotal.Some? then memTotal.value else "0"
  }

  /** `String.format("%s_%s", memTotal, buildURL)`: the label naming a flashed build. */
  function BuildIdentifier(memTotal: string, buildURL: string): string {
    memTotal + "_" + buildURL
  }

  /** Without a configured memory the flash step parses "0" and never fails on it. */
  lemma DefaultMemTotalParses()
    ensures ParseInt(GetMemTotal(None)) == Some(0)
  {
    assert GetMemTotal(None)[0..] == GetMemTotal(None);
  }

  /**
   * The build label names the pair it was made from whenever the memory
   * setting has no underscore, which holds for every number.
   */
  lemma BuildIdentifierInjective(m1: string, u1: string, m2: string, u2: string)
    requires forall i :: 0 <= i < |m1| ==> m1[i] != '_'
    requires forall i :: 0 <= i < |m2| ==> m2[i] != '_'
    requires BuildIdentifier(m1, u1) == BuildIdentifier(m2, u2)
    ensures m1 == m2 && u1 == u2
  {
    var b := BuildIdentifier(m1, u1);
    assert b[|m1|] == '_' && b[|m2|] == '_';
    assert forall i :: 0 <= i < |m1| ==> b[i] == m1[i];
    assert forall i :: 0 <= i < |m2| ==> b[i] == m2[i];
    assert |m1| == |m2|;
    assert m1 == b[..|m1|] && m2 == b[..|m2|];
    assert u1 == b[|m1| + 1..] && u2 == b[|m2| + 1..];
  }

  /** With an underscore in the memory setting two configurations share a label. */
  lemma BuildIdentifierAmbiguous()
    ensures BuildIdentifier("1_2", "u") == BuildIdentifier("1", "2_u")
  {
  }

  lemma NumbersHaveNoUnderscore(n: int)
    ensures forall i :: 0 <= i < |Show(n)| ==> Show(n)[i] != '_'
  {
    if n < 0 {
      assert forall i :: 1 <= i < |Show(n)| ==> Show(n)[i] == ShowNat(-n)[i - 1];
    }
  }
}
