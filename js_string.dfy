/** The two JavaScript string built-ins the loader uses to find the directory of
    a module: `String.prototype.lastIndexOf` with a one-character search string
    and `String.prototype.substr`. */
module JsString {

  /** `s.lastIndexOf(c)`: the largest index holding `c`, or -1 when `c` does not
      occur in `s`. */
  function LastIndexOf(s: string, c: char): (r: int)
    ensures -1 <= r < |s|
    ensures r >= 0 ==> s[r] == c
    ensures forall j :: r < j < |s| ==> s[j] != c
    ensures r == -1 <==> c !in s
    decreases |s|
  {
    if |s| == 0 then -1
    else if s[|s| - 1] == c then |s| - 1
    else LastIndexOf(s[..|s| - 1], c)
  }

  /** `s.substr(start, length)`: a negative start counts from the end, the
      start is clamped to the string, and a negative length gives "". */
  function Substr(s: string, start: int, length: int): (r: string)
    ensures |r| <= |s|
    ensures 0 <= start && 0 <= length && start + length <= |s| ==> r == s[start..start + length]
    ensures length <= 0 ==> r == ""
  {
    var from := if start < 0 then (if |s| + start < 0 then 0 else |s| + start)
                else if start > |s| then |s| else start;
    var count := if length < 0 then 0 else if length > |s| - from then |s| - from else length;
    s[from..from + count]
  }

  /** There is at most one way to split a string at an occurrence of `c` that is
      followed by no other `c`: that occurrence is the last one. */
  lemma {:induction false} LastIndexOfSplit(a: string, c: char, t: string)
    requires c !in t
    ensures LastIndexOf(a + [c] + t, c) == |a|
    decreases |t|
  {
    var s := a + [c] + t;
    if t == [] {
      assert s[|s| - 1] == c;
    } else {
      var u := t[..|t| - 1];
      assert s[|s| - 1] == t[|t| - 1];
      assert s[..|s| - 1] == a + [c] + u;
      assert c !in u by {
        assert forall x :: x in u ==> x in t;
      }
      LastIndexOfSplit(a, c, u);
    }
  }
}
