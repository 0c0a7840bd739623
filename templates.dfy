/**
 * Template literals: after the substitutions are evaluated and converted to
 * strings, the result is built by appending, for every quasi `i`, the quasi
 * and then substitution `i` when there is one.
 */
module Templates {

  /** Substitution `i`, or nothing past the last one. */
  function Sub(subs: seq<string>, i: nat): string {
    if i < |subs| then subs[i] else ""
  }

  /** The concatenation as the loop builds it, one quasi at a time from the left. */
  function TemplateJoin(parts: seq<string>, subs: seq<string>): string
    decreases |parts|
  {
    if parts == [] then ""
    else TemplateJoin(parts[..|parts| - 1], subs) + parts[|parts| - 1] + Sub(subs, |parts| - 1)
  }

  /** The concatenation loop itself. */
  method Interpolate(parts: seq<string>, subs: seq<string>) returns (result: string)
    ensures result == TemplateJoin(parts, subs)
  {
    result := "";
    var i := 0;
    while i < |parts|
      invariant 0 <= i <= |parts|
      invariant result == TemplateJoin(parts[..i], subs)
    {
      assert parts[..i + 1][..i] == parts[..i];
      result := result + parts[i];
      if i < |subs| {
        result := result + subs[i];
      }
      i := i + 1;
    }
    assert parts[..i] == parts;
  }

  /**
   * Reference definition: quasis and substitutions alternate, starting with
   * a quasi; substitutions beyond the last quasi are dropped.
   */
  function Interleave(parts: seq<string>, subs: seq<string>): string
    decreases |parts|
  {
    if parts == [] then ""
    else if subs == [] then parts[0] + Interleave(parts[1..], [])
    else parts[0] + subs[0] + Interleave(parts[1..], subs[1..])
  }

  lemma {:induction false} InterleaveSnoc(parts: seq<string>, subs: seq<string>, p: string)
    ensures Interleave(parts + [p], subs) == Interleave(parts, subs) + p + Sub(subs, |parts|)
    decreases |parts|
  {
    if parts == [] {
      assert Interleave([p], subs) == p + Sub(subs, 0) + Interleave([], if subs == [] then [] else subs[1..]);
    } else {
      assert (parts + [p])[0] == parts[0];
      assert (parts + [p])[1..] == parts[1..] + [p];
      var rest := if subs == [] then [] else subs[1..];
      InterleaveSnoc(parts[1..], rest, p);
      assert Sub(rest, |parts[1..]|) == Sub(subs, |parts|);
    }
  }

  /** The loop's left-to-right build agrees with the alternation. */
  lemma {:induction false} TemplateJoinIsInterleave(parts: seq<string>, subs: seq<string>)
    ensures TemplateJoin(parts, subs) == Interleave(parts, subs)
    decreases |parts|
  {
    if parts != [] {
      var n := |parts| - 1;
      TemplateJoinIsInterleave(parts[..n], subs);
      assert parts[..n] + [parts[n]] == parts;
      InterleaveSnoc(parts[..n], subs, parts[n]);
    }
  }
}
