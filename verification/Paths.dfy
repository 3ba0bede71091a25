/** Splitting and cleaning paths, as Go's path packages do. */
module Paths {

  /** strings.Split at a character. */
  function Split(s: string, sep: char): (r: seq<string>)
    ensures |r| >= 1
  {
    if s == "" then [""]
    else
      var rest := Split(s[1..], sep);
      if s[0] == sep then [""] + rest else [[s[0]] + rest[0]] + rest[1..]
  }

  lemma {:induction false} SplitWhole(s: string, sep: char)
    requires sep !in s
    ensures Split(s, sep) == [s]
  {
    if s != "" {
      SplitWhole(s[1..], sep);
      assert s == [s[0]] + s[1..];
    }
  }

  lemma {:induction false} SplitFirst(a: string, b: string, sep: char)
    requires sep !in a
    ensures Split(a + [sep] + b, sep) == [a] + Split(b, sep)
  {
    var s := a + [sep] + b;
    if a == "" {
      assert s[1..] == b;
    } else {
      SplitFirst(a[1..], b, sep);
      assert s[1..] == a[1..] + [sep] + b;
      assert a == [a[0]] + a[1..];
    }
  }

  /** The components path.Clean keeps of a path, given those kept so far; a rooted path has no parent at its root. */
  function CleanFrom(rooted: bool, kept: seq<string>, more: seq<string>): seq<string>
    decreases more
  {
    if more == [] then kept
    else
      var x := more[0];
      if x == "" || x == "." then CleanFrom(rooted, kept, more[1..])
      else if x != ".." then CleanFrom(rooted, kept + [x], more[1..])
      else if kept != [] && (rooted || kept[|kept| - 1] != "..") then CleanFrom(rooted, kept[..|kept| - 1], more[1..])
      else if rooted then CleanFrom(rooted, kept, more[1..])
      else CleanFrom(rooted, kept + [x], more[1..])
  }
}
