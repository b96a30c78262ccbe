/** Byte strings, searching, and the small result types shared by the other modules. */
module Text {

  datatype Option<+T> = None | Some(value: T)

  function OrElse<T>(o: Option<T>, otherwise: T): T {
    match o case None => otherwise case Some(value) => value
  }

  datatype Result<+T, +E> = Ok(value: T) | Err(error: E)

  const INT_MAX: int := 0x7FFF_FFFF

  // ---------------------------------------------------------------- searching

  predicate OccursAt(s: string, what: string, i: int) {
    0 <= i <= |s| - |what| && s[i..i + |what|] == what
  }

  /** Where `what` first occurs in `s` at or after `pos` (`std::string::find`). */
  function Find(s: string, what: string, pos: nat): (r: Option<nat>)
    ensures r.Some? ==> pos <= r.value <= |s| - |what|
    decreases |s| - pos
  {
    if |s| < pos + |what| then None
    else if OccursAt(s, what, pos) then Some(pos)
    else if pos == |s| then None
    else Find(s, what, pos + 1)
  }

  lemma {:induction false} FindIsFirst(s: string, what: string, pos: nat)
    ensures match Find(s, what, pos)
            case None => forall i :: pos <= i ==> !OccursAt(s, what, i)
            case Some(at) => OccursAt(s, what, at) && forall i :: pos <= i < at ==> !OccursAt(s, what, i)
    decreases |s| - pos
  {
    if pos + |what| <= |s| && pos < |s| && !OccursAt(s, what, pos) {
      FindIsFirst(s, what, pos + 1);
    }
  }

  lemma Assoc<T>(a: seq<T>, b: seq<T>, c: seq<T>)
    ensures a + b + c == a + (b + c)
  {
  }

  /** The length of the longest prefix of `s` all of whose characters satisfy `p`. */
  function Leading(s: string, p: char -> bool): (n: nat)
    ensures n <= |s|
  {
    if s == "" || !p(s[0]) then 0 else 1 + Leading(s[1..], p)
  }

  lemma {:induction false} LeadingStops(s: string, p: char -> bool)
    ensures var n := Leading(s, p);
            (forall i :: 0 <= i < n ==> p(s[i])) && (n < |s| ==> !p(s[n]))
  {
    if s != "" && p(s[0]) {
      LeadingStops(s[1..], p);
      assert forall i :: 1 <= i < Leading(s, p) ==> s[i] == s[1..][i - 1];
    }
  }

  predicate All(s: string, p: char -> bool) {
    forall i :: 0 <= i < |s| ==> p(s[i])
  }

  /** A run of `p` characters ended by the end of the text or by a character outside `p` is found whole. */
  lemma LeadingIs(u: string, v: string, p: char -> bool)
    requires All(u, p)
    requires v == "" || !p(v[0])
    ensures Leading(u + v, p) == |u|
  {
    LeadingStops(u + v, p);
    assert forall i :: 0 <= i < |u| ==> (u + v)[i] == u[i];
    if v != "" {
      assert (u + v)[|u|] == v[0];
    }
  }

  /** What it means to occur in a text, and to end one. */
  lemma OccursAsPart(s: string, what: string, i: nat)
    ensures OccursAt(s, what, i) <==> exists a, b :: s == a + what + b && |a| == i
  {
    if OccursAt(s, what, i) {
      assert s == s[..i] + what + s[i + |what|..];
    }
    forall a, b | s == a + what + b && |a| == i
      ensures OccursAt(s, what, i)
    {
      assert (a + what + b)[i..i + |what|] == what;
    }
  }

  lemma EndsWithPart(s: string, value: string)
    ensures EndsWith(s, value) <==> exists front :: s == front + value
  {
    if EndsWith(s, value) {
      assert s == s[..|s| - |value|] + value;
    }
  }

  predicate StartsWith(s: string, value: string) { value <= s }

  predicate EndsWith(s: string, value: string) {
    |s| >= |value| && s[|s| - |value|..] == value
  }
}
