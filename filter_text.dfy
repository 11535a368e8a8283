/**
 * The text form both device filter classes give themselves in `toString`:
 * `[DeviceFilter: <name1>=<value1>, <name2>=<value2>]`, and the reading that
 * recovers the two values from it.
 */
module FilterText {
  import opened Remote

  const Opening: string := "[DeviceFilter: "
  const Closing: string := "]"

  function Render(name1: string, value1: string, name2: string, value2: string): string {
    Opening + name1 + "=" + value1 + ", " + name2 + "=" + value2 + Closing
  }

  /** What stands between the two values: `, <name2>=`. */
  function Separator(name2: string): string {
    ", " + name2 + "="
  }

  predicate OccursAt(m: string, p: string, j: nat) {
    j + |p| <= |m| && m[j..j + |p|] == p
  }

  lemma OccursShift(m: string, p: string, j: nat)
    requires |m| > 0
    ensures OccursAt(m, p, j + 1) <==> OccursAt(m[1..], p, j)
  {
    if j + 1 + |p| <= |m| {
      assert m[j + 1..j + 1 + |p|] == m[1..][j..j + |p|];
    }
  }

  /** The first position at which `p` occurs in `m`. */
  function IndexOf(m: string, p: string): (r: Option<nat>)
    ensures r.Some? ==> OccursAt(m, p, r.value)
    ensures r.Some? ==> forall j: nat :: j < r.value ==> !OccursAt(m, p, j)
    ensures r.None? ==> forall j: nat :: !OccursAt(m, p, j)
    decreases |m|
  {
    if |m| < |p| then None
    else if m[..|p|] == p then Some(0)
    else match IndexOf(m[1..], p) {
      case None =>
        assert forall j: nat :: !OccursAt(m, p, j) by {
          forall j: nat ensures !OccursAt(m, p, j) {
            if j > 0 { OccursShift(m, p, j - 1); }
          }
        }
        None
      case Some(k) =>
        OccursShift(m, p, k);
        assert forall j: nat :: j < k + 1 ==> !OccursAt(m, p, j) by {
          forall j: nat | j < k + 1 ensures !OccursAt(m, p, j) {
            if j > 0 { OccursShift(m, p, j - 1); }
          }
        }
        Some(k + 1)
    }
  }

  /** Reads the two values back from a rendered filter, splitting at the first separator. */
  function Parse(s: string, name1: string, name2: string): Option<(string, string)> {
    var head := Opening + name1 + "=";
    var sep := Separator(name2);
    if |s| < |head| + |Closing| || s[..|head|] != head || s[|s| - |Closing|..] != Closing then None
    else
      var m := s[|head|..|s| - |Closing|];
      match IndexOf(m, sep) {
        case None => None
        case Some(k) => Some((m[..k], m[k + |sep|..]))
      }
  }

  /** A prefix without the first character of `p` holds no occurrence of it. */
  lemma {:induction false} IndexOfAfterPlain(x: string, y: string, p: string)
    requires |p| > 0 && |p| <= |y| && y[..|p|] == p
    requires forall i :: 0 <= i < |x| ==> x[i] != p[0]
    ensures IndexOf(x + y, p) == Some(|x|)
    decreases |x|
  {
    if x == [] {
      assert x + y == y;
    } else {
      var m := x + y;
      assert m[0] == x[0];
      assert m[..|p|] != p by { assert m[..|p|][0] == x[0]; }
      assert m[1..] == x[1..] + y;
      IndexOfAfterPlain(x[1..], y, p);
    }
  }

  /** The first value comes back unchanged when it has no comma; the second always does. */
  lemma ParseRender(name1: string, value1: string, name2: string, value2: string)
    requires forall i :: 0 <= i < |value1| ==> value1[i] != ','
    ensures Parse(Render(name1, value1, name2, value2), name1, name2) == Some((value1, value2))
  {
    var sep := Separator(name2);
    var m := value1 + (sep + value2);
    RenderShape(name1, value1, name2, value2);
    assert (sep + value2)[..|sep|] == sep;
    IndexOfAfterPlain(value1, sep + value2, sep);
    ParseFrame(name1, name2, m, |value1|);
    assert m[..|value1|] == value1;
    assert m[|value1| + |sep|..] == value2;
  }

  lemma RenderShape(name1: string, value1: string, name2: string, value2: string)
    ensures Render(name1, value1, name2, value2)
         == Opening + name1 + "=" + (value1 + (Separator(name2) + value2)) + Closing
  {
  }

  /** Parsing strips the frame and splits the middle at the first separator. */
  lemma ParseFrame(name1: string, name2: string, m: string, k: nat)
    requires IndexOf(m, Separator(name2)) == Some(k)
    ensures Parse(Opening + name1 + "=" + m + Closing, name1, name2)
         == Some((m[..k], m[k + |Separator(name2)|..]))
  {
    FrameSlices(Opening + name1 + "=", m, Closing);
  }

  lemma FrameSlices(head: string, m: string, tail: string)
    ensures var s := head + m + tail;
      s[..|head|] == head && s[|s| - |tail|..] == tail && s[|head|..|s| - |tail|] == m
  {
    var s := head + m + tail;
    assert s[..|head|] == head;
    assert s[|s| - |tail|..] == tail;
    assert s[|head|..|s| - |tail|] == m;
  }

  /** With a comma allowed in the first value, two different pairs render alike. */
  lemma RenderNotInjective(name1: string, name2: string)
    ensures Render(name1, "a" + Separator(name2) + "b", name2, "c")
         == Render(name1, "a", name2, "b" + Separator(name2) + "c")
  {
  }
}
