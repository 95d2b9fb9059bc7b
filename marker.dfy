/** The timing marker of the code runners. Every test case runs inside a
    shell script that, after the program exits, echoes `===TIME: <ms>` on
    stdout. The runner takes the number after the first match of
    `/===TIME: (\d+)/` (0 when there is none) and removes the first match of
    `/===TIME: \d+\n?/` from stdout before trimming it. */
module TimingMarker {
  import opened Wrappers
  import opened Text

  const Prefix: string := "===TIME: "

  /** A match of `/===TIME: \d/` starts at position `i`. */
  predicate MarkerAt(s: string, i: nat) {
    i + |Prefix| < |s| && s[i..i + |Prefix|] == Prefix && IsDigit(s[i + |Prefix|])
  }

  predicate NoMarker(s: string) {
    forall i :: 0 <= i < |s| ==> !MarkerAt(s, i)
  }

  /** The leftmost match at or after `from`, as a regular-expression search finds it. */
  function FindMarker(s: string, from: nat): (r: Option<nat>)
    ensures r.Some? ==> from <= r.value && r.value + |Prefix| < |s|
    decreases |s| - from
  {
    if from + |Prefix| >= |s| then None
    else if MarkerAt(s, from) then Some(from)
    else FindMarker(s, from + 1)
  }

  /** `FindMarker` finds the leftmost match at or after `from`, and reports
      none only when there is none. */
  lemma {:induction false} FindMarkerLeftmost(s: string, from: nat)
    ensures var r := FindMarker(s, from);
      && (r.Some? ==> from <= r.value && MarkerAt(s, r.value))
      && (r.Some? ==> forall k :: from <= k < r.value ==> !MarkerAt(s, k))
      && (r.None? ==> forall k :: from <= k ==> !MarkerAt(s, k))
    decreases |s| - from
  {
    if from + |Prefix| < |s| && !MarkerAt(s, from) {
      FindMarkerLeftmost(s, from + 1);
    }
  }

  /** The end of the maximal run of digits starting at `j` (the greedy `\d+`). */
  function DigitRunEnd(s: string, j: nat): (e: nat)
    requires j <= |s|
    ensures j <= e <= |s| && AllDigits(s[j..e])
    ensures e == |s| || !IsDigit(s[e])
    decreases |s| - j
  {
    if j < |s| && IsDigit(s[j]) then
      var e := DigitRunEnd(s, j + 1);
      assert s[j..e] == [s[j]] + s[j + 1..e];
      e
    else j
  }

  /** The per-case time: the number after the first marker, 0 if there is none. */
  function ParseTime(stdout: string): nat {
    match FindMarker(stdout, 0)
    case None => 0
    case Some(i) =>
      var d := i + |Prefix|;
      DecimalValue(stdout[d..DigitRunEnd(stdout, d)])
  }

  /** stdout with the first marker (and one newline right after it) removed. */
  function StripMarker(stdout: string): string {
    match FindMarker(stdout, 0)
    case None => stdout
    case Some(i) =>
      var e := DigitRunEnd(stdout, i + |Prefix|);
      var e' := if e < |stdout| && stdout[e] == '\n' then e + 1 else e;
      stdout[..i] + stdout[e'..]
  }

  /** Output without a marker reads as time 0 and is left as it is; output
      with one loses at least the marker. */
  lemma MarkerAbsent(stdout: string)
    ensures NoMarker(stdout) ==> ParseTime(stdout) == 0 && StripMarker(stdout) == stdout
    ensures !NoMarker(stdout) ==> |StripMarker(stdout)| < |stdout|
  {
    FindMarkerLeftmost(stdout, 0);
  }

  /** `result.outData.replace(/===TIME: \d+\n?/, "").trim()` */
  function UserOutput(stdout: string): (r: string)
    ensures Trimmed(r)
  {
    Trim(StripMarker(stdout))
  }

  /** What the wrapper script echoes after a program that ran for `ms` milliseconds. */
  function Marker(ms: nat): (m: string)
    ensures MarkerAt(m, 0)
  {
    var m := Prefix + DecimalString(ms) + "\n";
    assert m[..|Prefix|] == Prefix;
    m
  }

  lemma {:induction false} DigitRunEndAt(s: string, j: nat, e: nat)
    requires j <= e <= |s| && AllDigits(s[j..e])
    requires e == |s| || !IsDigit(s[e])
    ensures DigitRunEnd(s, j) == e
    decreases e - j
  {
    if j < e {
      assert s[j] == s[j..e][0];
      assert s[j + 1..e] == s[j..e][1..];
      DigitRunEndAt(s, j + 1, e);
    }
  }

  /** A marker cannot begin inside marker-free text and run into a following marker. */
  lemma NoMarkerBefore(a: string, n: nat, rest: string, k: nat)
    requires NoMarker(a) && k < |a|
    ensures !MarkerAt(a + Marker(n) + rest, k)
  {
    var s := a + Marker(n) + rest;
    var p := |a|;
    assert s[p..p + 3] == "===";
    if k + |Prefix| < p {
      assert s[k..k + |Prefix| + 1] == a[k..k + |Prefix| + 1];
      assert !MarkerAt(a, k);
    } else if k + |Prefix| == p {
      assert s[k + |Prefix|] == '=';
    } else {
      var d := p - k;
      var w := s[k..k + |Prefix|];
      if d >= 3 {
        assert w[d] == s[p];
      } else if d == 2 {
        assert w[3] == s[p + 1];
      } else {
        assert w[3] == s[p + 2];
      }
      assert w != Prefix;
    }
  }

  /** The first marker decides: after marker-free program output, the
      echoed marker is the one parsed and the one removed. */
  lemma FirstMarkerDecides(a: string, n: nat, rest: string)
    requires NoMarker(a)
    ensures ParseTime(a + Marker(n) + rest) == n
    ensures StripMarker(a + Marker(n) + rest) == a + rest
  {
    var s := a + Marker(n) + rest;
    var p := |a|;
    var ds := DecimalString(n);
    var d := p + |Prefix|;
    forall k | 0 <= k < p ensures !MarkerAt(s, k) {
      NoMarkerBefore(a, n, rest, k);
    }
    assert s[p..p + |Marker(n)|] == Marker(n);
    assert s[p..d] == Prefix;
    assert s[d..d + |ds|] == ds;
    assert s[d + |ds|] == '\n';
    assert MarkerAt(s, p);
    assert FindMarker(s, 0) == Some(p) by {
      FindMarkerFirst(s, 0, p);
    }
    DigitRunEndAt(s, d, d + |ds|);
    DecimalRoundTrip(n);
    assert s[..p] == a;
    assert s[d + |ds| + 1..] == rest;
  }

  /** The program's own output comes back intact when it contains no marker. */
  lemma MarkerRoundTrip(out: string, n: nat)
    requires NoMarker(out)
    ensures ParseTime(out + Marker(n)) == n
    ensures StripMarker(out + Marker(n)) == out
  {
    FirstMarkerDecides(out, n, []);
    assert out + Marker(n) + [] == out + Marker(n);
    assert out + [] == out;
  }

  lemma {:induction false} FindMarkerFirst(s: string, from: nat, p: nat)
    requires from <= p && MarkerAt(s, p)
    requires forall k :: from <= k < p ==> !MarkerAt(s, k)
    ensures FindMarker(s, from) == Some(p)
    decreases p - from
  {
    if from < p {
      FindMarkerFirst(s, from + 1, p);
    }
  }
}
