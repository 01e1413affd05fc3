/** Counting what differs between the lines of a file and the lines after some steps. */
module Changes {

  /** Lines of `b` that differ from the line of `a` in their place, or have none. */
  function Changed(a: seq<string>, b: seq<string>): nat
    requires |a| <= |b|
    decreases |b|
  {
    var n := |b| - 1;
    if |b| == 0 then 0
    else if |a| < |b| then 1 + Changed(a, b[..n])
    else Changed(a[..n], b[..n]) + if a[n] != b[n] then 1 else 0
  }

  lemma ChangedAppend(a: seq<string>, b: seq<string>, line: string)
    requires |a| <= |b|
    ensures Changed(a, b + [line]) == Changed(a, b) + 1
  {
    assert (b + [line])[..|b|] == b;
  }

  lemma {:induction false} ChangedUpdate(a: seq<string>, b: seq<string>, i: nat, line: string)
    requires i < |a| <= |b| && a[i] == b[i] && a[i] != line
    ensures Changed(a, b[i := line]) == Changed(a, b) + 1
    decreases |b|
  {
    var n := |b| - 1;
    if |a| < |b| {
      ChangedUpdate(a, b[..n], i, line);
      assert b[i := line][..n] == b[..n][i := line];
    } else if i < n {
      ChangedUpdate(a[..n], b[..n], i, line);
      assert b[i := line][..n] == b[..n][i := line];
    } else {
      assert b[i := line][..n] == b[..n];
    }
  }

  /** Nothing is counted exactly when nothing changed. */
  lemma {:induction false} ChangedZeroIff(a: seq<string>, b: seq<string>)
    requires |a| <= |b|
    ensures Changed(a, b) == 0 <==> a == b
    decreases |b|
  {
    var n := |b| - 1;
    if |b| > 0 && |a| == |b| {
      ChangedZeroIff(a[..n], b[..n]);
      assert a == a[..n] + [a[n]] && b == b[..n] + [b[n]];
    }
  }
}
