/** The JavaScript string operations the interpreters use: `split` on one
    character, `includes`, and `Array.find` of the word starting with a letter. */
module Text {
  import opened Values

  /** Index of the first `c` in `s`, or `|s|` when there is none. */
  function IndexOf(s: string, c: char): (i: nat)
    ensures i <= |s|
    ensures i < |s| ==> s[i] == c
    ensures forall j :: 0 <= j < i ==> s[j] != c
  {
    if s == [] then 0
    else if s[0] == c then 0
    else 1 + IndexOf(s[1..], c)
  }

  /** `s.split(sep)` for a one-character separator. */
  function Split(s: string, sep: char): (parts: seq<string>)
    ensures |parts| >= 1
    decreases |s|
  {
    var i := IndexOf(s, sep);
    if i == |s| then [s] else [s[..i]] + Split(s[i + 1..], sep)
  }

  /** `parts.join(sep)`: the inverse of `Split`. */
  function Join(parts: seq<string>, sep: char): string
    requires |parts| >= 1
  {
    if |parts| == 1 then parts[0] else parts[0] + [sep] + Join(parts[1..], sep)
  }

  /** Splitting and joining back gives the string; no piece holds the separator. */
  lemma {:induction false} JoinSplit(s: string, sep: char)
    ensures Join(Split(s, sep), sep) == s
    ensures forall k :: 0 <= k < |Split(s, sep)| ==> sep !in Split(s, sep)[k]
    decreases |s|
  {
    var i := IndexOf(s, sep);
    if i < |s| {
      var rest := Split(s[i + 1..], sep);
      JoinSplit(s[i + 1..], sep);
      assert s == s[..i] + [sep] + s[i + 1..];
      forall k | 0 <= k < |Split(s, sep)|
        ensures sep !in Split(s, sep)[k]
      {
        if k == 0 {
          assert forall j :: 0 <= j < i ==> s[..i][j] != sep;
        } else {
          assert Split(s, sep)[k] == rest[k - 1];
        }
      }
    } else {
      assert forall j :: 0 <= j < |s| ==> s[j] != sep;
    }
  }

  /** Pieces free of the separator are recovered by splitting their join. */
  lemma {:induction false} SplitJoin(parts: seq<string>, sep: char)
    requires |parts| >= 1
    requires forall k :: 0 <= k < |parts| ==> sep !in parts[k]
    ensures Split(Join(parts, sep), sep) == parts
    decreases |parts|
  {
    var s := Join(parts, sep);
    var p := parts[0];
    assert forall j :: 0 <= j < |p| ==> s[j] == p[j] && p[j] != sep;
    if |parts| > 1 {
      assert s[|p|] == sep;
      assert IndexOf(s, sep) == |p|;
      assert s[..|p|] == p;
      assert s[|p| + 1..] == Join(parts[1..], sep);
      SplitJoin(parts[1..], sep);
    } else {
      assert IndexOf(s, sep) == |s|;
    }
  }

  /** `line.split(c, 2)[0]`: everything before the first `c`. */
  function Before(s: string, c: char): (r: string)
    ensures r <= s && c !in r
    ensures |r| < |s| ==> s[|r|] == c
  {
    s[..IndexOf(s, c)]
  }

  /** `s.includes(pat)`. */
  function Contains(s: string, pat: string): (b: bool)
    decreases |s|
  {
    if |s| < |pat| then false
    else if s[..|pat|] == pat then true
    else Contains(s[1..], pat)
  }

  /** `pat` occurs in `s` at index `i`. */
  predicate OccursAt(s: string, pat: string, i: int) {
    0 <= i <= |s| - |pat| && s[i..i + |pat|] == pat
  }

  /** `Contains` holds exactly when `pat` occurs at some index of `s`. */
  lemma {:induction false} ContainsIff(s: string, pat: string)
    ensures Contains(s, pat) <==> exists i :: OccursAt(s, pat, i)
    decreases |s|
  {
    if |s| >= |pat| && s[..|pat|] != pat {
      ContainsIff(s[1..], pat);
      if exists i :: OccursAt(s, pat, i) {
        var i :| OccursAt(s, pat, i);
        assert i > 0;
        assert s[1..][i - 1..i - 1 + |pat|] == pat;
        assert OccursAt(s[1..], pat, i - 1);
      }
      if Contains(s[1..], pat) {
        var i :| OccursAt(s[1..], pat, i);
        assert s[i + 1..i + 1 + |pat|] == pat;
        assert OccursAt(s, pat, i + 1);
      }
    } else if |s| >= |pat| {
      assert OccursAt(s, pat, 0);
    }
  }

  /** A word that starts with `letter`. */
  predicate StartsWith(w: string, letter: char) {
    |w| > 0 && w[0] == letter
  }

  /** `cmd.find((v) => v[0] === letter)`: the first word starting with `letter`. */
  function FindWord(cmd: seq<string>, letter: char): (r: Option<string>)
    ensures r.Some? <==> exists k :: 0 <= k < |cmd| && StartsWith(cmd[k], letter)
    ensures r.Some? ==> exists k :: 0 <= k < |cmd| && cmd[k] == r.value && StartsWith(cmd[k], letter) &&
                          forall j :: 0 <= j < k ==> !StartsWith(cmd[j], letter)
  {
    if cmd == [] then None
    else if StartsWith(cmd[0], letter) then Some(cmd[0])
    else
      var r := FindWord(cmd[1..], letter);
      assert forall k :: 1 <= k < |cmd| ==> cmd[k] == cmd[1..][k - 1];
      if r.Some? then
        ghost var k :| 0 <= k < |cmd[1..]| && cmd[1..][k] == r.value && StartsWith(cmd[1..][k], letter) &&
                     forall j :: 0 <= j < k ==> !StartsWith(cmd[1..][j], letter);
        assert cmd[k + 1] == r.value && forall j :: 0 <= j < k + 1 ==> !StartsWith(cmd[j], letter);
        r
      else
        r
  }
}
