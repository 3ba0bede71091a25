/**
 The `[cite: id]` scanner: the loop over the text, and that it reads back what
 is printed. The lemmas hold for any opening marker whose first character does
 not recur in it, and any other closing character.
 */
module CiteScanner {
  import opened Text

  const OPEN: string := "[cite: "

  /** The ids between `open` and `close` from position i on, in order. */
  function ScanFrom(text: string, open: string, close: char, i: nat): seq<string>
    requires i <= |text| && open != ""
    decreases |text| - i
  {
    var start := Find(text, open, i);
    if start == |text| then []
    else
      var from := start + |open|;
      var end := Find(text, [close], from);
      if end == |text| then []
      else
        var id := Trim(text[from..end]);
        var rest := ScanFrom(text, open, close, end);
        if id == "" then rest else [id] + rest
  }

  /** The ids a text cites, in order. */
  function Scan(text: string): seq<string> {
    ScanFrom(text, OPEN, ']', 0)
  }

  /** The next marker from position i on and the closing character after it, if both are there. */
  method NextCite(text: string, open: string, close: char, i: nat) returns (found: bool, from: nat, end: nat)
    requires open != "" && i <= |text|
    ensures !found ==> ScanFrom(text, open, close, i) == []
    ensures found ==> |open| <= from <= |text| && Find(text, open, i) == from - |open| && Find(text, [close], from) == end < |text|
  {
    found, from, end := false, 0, 0;
    var start := Find(text, open, i);
    if start == |text| {
      return;
    }
    from := start + |open|;
    end := Find(text, [close], from);
    found := end < |text|;
  }

  /** A marker and its closing character make one turn of the scan; a blank id counts for nothing. */
  lemma {:induction false} ScanTurn(text: string, open: string, close: char, i: nat, from: nat, end: nat, id: string)
    requires i <= |text| && open != "" && |open| <= from <= |text|
    requires Find(text, open, i) == from - |open| && Find(text, [close], from) == end < |text|
    requires Trim(text[from..end]) == id
    ensures id == "" ==> ScanFrom(text, open, close, i) == ScanFrom(text, open, close, end)
    ensures id != "" ==> ScanFrom(text, open, close, i) == [id] + ScanFrom(text, open, close, end)
  {
  }

  lemma Regroup(ids: seq<string>, id: string, rest: seq<string>)
    ensures ids + ([id] + rest) == (ids + [id]) + rest
  {
  }

  /** The scan loop, which continues at the closing character. */
  method ScanLoop(text: string, open: string, close: char) returns (ids: seq<string>)
    requires open != ""
    ensures ids == ScanFrom(text, open, close, 0)
  {
    ids := [];
    var i := 0;
    while true
      invariant 0 <= i <= |text|
      invariant ids + ScanFrom(text, open, close, i) == ScanFrom(text, open, close, 0)
      decreases |text| - i
    {
      var found, from, end := NextCite(text, open, close, i);
      if !found {
        return;
      }
      var id := Trim(text[from..end]);
      ScanTurn(text, open, close, i, from, end, id);
      Regroup(ids, id, ScanFrom(text, open, close, end));
      if id != "" {
        ids := ids + [id];
      }
      i := end;
    }
  }

  method CitedIDs(text: string) returns (ids: seq<string>)
    ensures ids == Scan(text)
  {
    ids := ScanLoop(text, OPEN, ']');
  }

  // ----- printing -----

  /** A citation and the text after it. */
  datatype Cite = Cite(id: string, after: string)

  function PrintWith(before: string, cites: seq<Cite>, open: string, close: char): string
    decreases |cites|
  {
    if cites == [] then before
    else before + open + cites[0].id + PrintWith([close] + cites[0].after, cites[1..], open, close)
  }

  /** The text with every citation written as [cite: id]. */
  function Print(before: string, cites: seq<Cite>): string {
    PrintWith(before, cites, OPEN, ']')
  }

  function Ids(cites: seq<Cite>): seq<string> {
    seq(|cites|, i requires 0 <= i < |cites| => cites[i].id)
  }

  /** Free of the marker. */
  ghost predicate Plain(text: string, open: string) {
    NoneIn(text, open, 0, |text|)
  }

  /** The marker's first character does not recur in it and does not close a citation. */
  ghost predicate Marker(open: string, close: char) {
    open != "" && open[0] != close && forall k :: 0 < k < |open| ==> open[k] != open[0]
  }

  predicate Citable(id: string, close: char) {
    id != "" && Trimmed(id) && close !in id
  }

  lemma HasAtSplit(s: string, a: string, b: string, i: nat)
    requires HasAt(s, a + b, i)
    ensures HasAt(s, a, i) && HasAt(s, b, i + |a|)
  {
    forall j | 0 <= j < |a| ensures s[i + j] == a[j] {
      assert (a + b)[j] == a[j];
    }
    forall j | 0 <= j < |b| ensures s[i + |a| + j] == b[j] {
      assert (a + b)[|a| + j] == b[j] && s[i + (|a| + j)] == (a + b)[|a| + j];
    }
  }

  /** The marker cannot begin in text free of it and end in a marker that follows. */
  lemma MarkerFound(text: string, i: nat, before: string, open: string, close: char)
    requires Marker(open, close) && Plain(before, open)
    requires HasAt(text, before, i) && HasAt(text, open, i + |before|)
    ensures Find(text, open, i) == i + |before|
  {
    var r := i + |before|;
    forall k: nat | i <= k < r ensures !HasAt(text, open, k) {
      var j := k - i;
      if k + |open| <= r {
        assert !HasAt(before, open, j);
        var d :| 0 <= d < |open| && before[j + d] != open[d];
        assert text[i + (j + d)] == before[j + d];
        assert text[k + d] != open[d];
      } else if k + |open| <= |text| {
        assert text[r + 0] == open[0] && open[r - k] != open[0];
        assert text[k + (r - k)] != open[r - k];
      }
    }
    FindIs(text, open, i, r);
  }

  lemma CloseFound(text: string, i: nat, id: string, close: char)
    requires close !in id && HasAt(text, id, i) && i + |id| < |text| && text[i + |id|] == close
    ensures Find(text, [close], i) == i + |id|
  {
    var r := i + |id|;
    assert HasAt(text, [close], r);
    forall k: nat | i <= k < r ensures !HasAt(text, [close], k) {
      assert text[i + (k - i)] == id[k - i];
      assert text[k + 0] != [close][0];
    }
    FindIs(text, [close], i, r);
  }

  lemma CloseIsPlain(text: string, open: string, close: char)
    requires Marker(open, close) && Plain(text, open)
    ensures Plain([close] + text, open)
  {
    var s := [close] + text;
    forall k: nat | k < |s| ensures !HasAt(s, open, k) {
      if k == 0 {
        assert s[0 + 0] != open[0];
      } else if k + |open| <= |s| {
        assert !HasAt(text, open, k - 1);
        var d :| 0 <= d < |open| && text[k - 1 + d] != open[d];
        assert s[k + d] == text[k - 1 + d];
      }
    }
  }

  lemma PlainHasNone(text: string, i: nat, last: string, open: string)
    requires open != "" && Plain(last, open) && HasAt(text, last, i) && i + |last| == |text|
    ensures Find(text, open, i) == |text|
  {
    forall k: nat | i <= k < |text| ensures !HasAt(text, open, k) {
      if k + |open| <= |text| {
        var j := k - i;
        assert !HasAt(last, open, j);
        var d :| 0 <= d < |open| && last[j + d] != open[d];
        assert text[i + (j + d)] == last[j + d];
        assert text[k + d] != open[d];
      }
    }
    FindIs(text, open, i, |text|);
  }

  /** Text that goes on with a citation yields its id, and the scan goes on at the closing character. */
  lemma {:induction false} OneCite(text: string, i: nat, before: string, open: string, close: char, id: string)
    requires Marker(open, close) && Plain(before, open) && Citable(id, close)
    requires HasAt(text, before, i) && HasAt(text, open, i + |before|) && HasAt(text, id, i + |before| + |open|)
    requires var end := i + |before| + |open| + |id|; end < |text| && text[end] == close
    ensures ScanFrom(text, open, close, i) == [id] + ScanFrom(text, open, close, i + |before| + |open| + |id|)
  {
    var from := i + |before| + |open|;
    MarkerFound(text, i, before, open, close);
    CloseFound(text, from, id, close);
    assert text[from..from + |id|] == id;
    TrimSound(id);
    ScanTurn(text, open, close, i, from, from + |id|, id);
  }

  lemma PrintBegins(before: string, cites: seq<Cite>, open: string, close: char)
    ensures |before| <= |PrintWith(before, cites, open, close)|
    ensures before != "" ==> PrintWith(before, cites, open, close)[0] == before[0]
  {
  }

  /** Where the parts of a printed text that begins with a citation lie. */
  lemma {:induction false} PrintedParts(text: string, i: nat, before: string, cites: seq<Cite>, open: string, close: char)
    requires cites != [] && HasAt(text, PrintWith(before, cites, open, close), i)
    ensures var id, next := cites[0].id, PrintWith([close] + cites[0].after, cites[1..], open, close);
            var end := i + |before| + |open| + |id|;
            && |PrintWith(before, cites, open, close)| == |before| + |open| + |id| + |next|
            && HasAt(text, before, i) && HasAt(text, open, i + |before|) && HasAt(text, id, i + |before| + |open|)
            && HasAt(text, next, end) && end < |text| && text[end] == close
  {
    var id, after := cites[0].id, [close] + cites[0].after;
    var next := PrintWith(after, cites[1..], open, close);
    HasAtSplit(text, before + open + id, next, i);
    HasAtSplit(text, before + open, id, i);
    HasAtSplit(text, before, open, i);
    PrintBegins(after, cites[1..], open, close);
    assert text[i + |before + open + id| + 0] == next[0];
  }

  /** The scan of a printed text yields the first citation and goes on where the rest is printed. */
  lemma {:induction false} FirstCite(text: string, i: nat, before: string, cites: seq<Cite>, open: string, close: char) returns (end: nat)
    requires cites != [] && Marker(open, close) && Plain(before, open) && Citable(cites[0].id, close)
    requires var printed := PrintWith(before, cites, open, close); HasAt(text, printed, i) && i + |printed| == |text|
    ensures end < |text| && ScanFrom(text, open, close, i) == [cites[0].id] + ScanFrom(text, open, close, end)
    ensures var next := PrintWith([close] + cites[0].after, cites[1..], open, close);
            HasAt(text, next, end) && end + |next| == |text|
  {
    end := i + |before| + |open| + |cites[0].id|;
    PrintedParts(text, i, before, cites, open, close);
    OneCite(text, i, before, open, close, cites[0].id);
  }

  lemma IdsCons(cites: seq<Cite>)
    requires cites != []
    ensures Ids(cites) == [cites[0].id] + Ids(cites[1..])
  {
  }

  /** Scanning from where the printing began reads back exactly the printed ids, in order. */
  lemma {:induction false} ReadsBackFrom(text: string, i: nat, before: string, cites: seq<Cite>, open: string, close: char)
    requires Marker(open, close) && Plain(before, open)
    requires forall k :: 0 <= k < |cites| ==> Citable(cites[k].id, close) && Plain(cites[k].after, open)
    requires var printed := PrintWith(before, cites, open, close); HasAt(text, printed, i) && i + |printed| == |text|
    ensures ScanFrom(text, open, close, i) == Ids(cites)
    decreases |cites|
  {
    if cites == [] {
      PlainHasNone(text, i, before, open);
    } else {
      var end := FirstCite(text, i, before, cites, open, close);
      CloseIsPlain(cites[0].after, open, close);
      ReadsBackFrom(text, end, [close] + cites[0].after, cites[1..], open, close);
      IdsCons(cites);
    }
  }

  lemma OpenIsMarker()
    ensures Marker(OPEN, ']')
  {
  }

  /** Printing any citable ids between texts free of the marker, and scanning, returns those ids in order. */
  lemma ScanReadsBack(before: string, cites: seq<Cite>)
    requires Plain(before, OPEN)
    requires forall k :: 0 <= k < |cites| ==> Citable(cites[k].id, ']') && Plain(cites[k].after, OPEN)
    ensures Scan(Print(before, cites)) == Ids(cites)
  {
    OpenIsMarker();
    ReadsBackFrom(Print(before, cites), 0, before, cites, OPEN, ']');
  }

  lemma NoCloseBefore(text: string, close: char, from: nat, end: nat)
    requires from <= |text| && end == Find(text, [close], from)
    ensures close !in text[from..end]
  {
    FindSound(text, [close], from);
    forall k | from <= k < end ensures text[k] != close {
      assert !HasAt(text, [close], k);
      assert text[k + 0] != [close][0];
    }
  }

  /** Whatever the text, the ids found can be printed. */
  lemma {:induction false} ScannedAreCitable(text: string, open: string, close: char, i: nat)
    requires i <= |text| && open != ""
    ensures forall id :: id in ScanFrom(text, open, close, i) ==> Citable(id, close)
    decreases |text| - i
  {
    var start := Find(text, open, i);
    if start < |text| {
      var from := start + |open|;
      var end := Find(text, [close], from);
      if end < |text| {
        TrimSound(text[from..end]);
        NoCloseBefore(text, close, from, end);
        ScannedAreCitable(text, open, close, end);
      }
    }
  }

  function Bare(ids: seq<string>): seq<Cite> {
    seq(|ids|, i requires 0 <= i < |ids| => Cite(ids[i], ""))
  }

  /** Printing what any text cites and scanning again finds the same ids. */
  lemma ScanPrintScan(text: string)
    ensures Scan(Print("", Bare(Scan(text)))) == Scan(text)
  {
    ScannedAreCitable(text, OPEN, ']', 0);
    var cites := Bare(Scan(text));
    forall k | 0 <= k < |cites| ensures Citable(cites[k].id, ']') {
      assert Scan(text)[k] in Scan(text);
    }
    ScanReadsBack("", cites);
    assert Ids(cites) == Scan(text);
  }
}
