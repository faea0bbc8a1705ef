/** What a blocklist key means for queries: the scan cuts text at every dot, a query is made of labels. */
module ListedNames {
  import opened Prelude
  import opened Dns
  import opened DomainMatcher
  import opened BlocklistManager

  // ----- suffixes of the text against suffixes of the labels ----------------------------------

  /** s is written from the labels of d from some label on. */
  ghost predicate OnLabels(s: string, d: string) {
    exists n: nat :: n < |Labels(d)| && Render(Labels(d)[n..]) == s + "."
  }

  /** No label has a dot of its own. */
  predicate PlainDots(d: string) { forall t :: t in Labels(d) ==> '.' !in t }

  lemma SameText(s: string, t: string)
    requires s + "." == t + "."
    ensures s == t
  {
    assert (s + ".")[..|s|] == s && (t + ".")[..|t|] == t;
  }

  lemma OnLabelsStep(s: string, d: string)
    ensures match FirstDot(d)
            case None => OnLabels(s, d) <==> s == d
            case Some(i) => OnLabels(s, d) <==> s == d || OnLabels(s, d[i + 1..])
  {
    RenderOfLabels(d);
    assert Labels(d)[0..] == Labels(d);
    if n: nat :| n < |Labels(d)| && Render(Labels(d)[n..]) == s + "." {
      if n == 0 {
        SameText(s, d);
      } else {
        assert Labels(d)[n..] == Labels(d[FirstDot(d).value + 1..])[n - 1..];
      }
    }
    if FirstDot(d).Some? {
      var rest := d[FirstDot(d).value + 1..];
      if n: nat :| n < |Labels(rest)| && Render(Labels(rest)[n..]) == s + "." {
        assert Labels(d)[n + 1..] == Labels(rest)[n..];
      }
    }
  }

  lemma {:induction false} OnLabelsIsSuffix(s: string, d: string)
    requires OnLabels(s, d)
    ensures LabelSuffix(s, d)
    decreases |d|
  {
    OnLabelsStep(s, d);
    if s != d {
      var rest := d[FirstDot(d).value + 1..];
      OnLabelsIsSuffix(s, rest);
      SuffixTransitive(s, rest, d);
    }
  }

  lemma {:induction false} PlainSuffixIsOnLabels(s: string, d: string)
    requires PlainDots(d) && LabelSuffix(s, d)
    ensures OnLabels(s, d)
    decreases |d|
  {
    OnLabelsStep(s, d);
    SuffixStep(s, d);
    if s != d {
      var j := FindDot(d).value;
      assert Labels(d)[0] in Labels(d);
      assert FirstDot(d).Some?;
      var i := FirstDot(d).value;
      assert forall k :: 0 <= k < i ==> d[..i][k] == d[k];
      assert forall k :: 0 <= k < j ==> d[..j][k] == d[k];
      assert i == j;
      assert Labels(d)[1..] == Labels(d[i + 1..]);
      PlainSuffixIsOnLabels(s, d[i + 1..]);
    }
  }

  /** The text after an escaped dot is a suffix of the text alone. */
  lemma {:induction false} EscapedDotCuts(d: string) returns (s: string)
    requires !PlainDots(d)
    ensures LabelSuffix(s, d) && !OnLabels(s, d)
    decreases |d|
  {
    var first := Labels(d)[0];
    if '.' in first {
      var j := FindDot(d).value;
      s := d[j + 1..];
      OnLabelsStep(s, d);
      if FirstDot(d).Some? {
        var i := FirstDot(d).value;
        assert forall k :: 0 <= k < j ==> d[..j][k] == d[k];
        assert j < i;
        if OnLabels(s, d[i + 1..]) { OnLabelsIsSuffix(s, d[i + 1..]); }
      }
    } else {
      var rest := d[FirstDot(d).value + 1..];
      assert Labels(d) == [first] + Labels(rest);
      s := EscapedDotCuts(rest);
      SuffixTransitive(s, rest, d);
      OnLabelsStep(s, d);
    }
  }

  /** The suffixes that the scan goes through are those of the labels exactly for the names without escaped dots. */
  lemma SuffixesAreOfLabelsIff(d: string)
    ensures (forall s :: LabelSuffix(s, d) <==> OnLabels(s, d)) <==> PlainDots(d)
  {
    if PlainDots(d) {
      forall s ensures LabelSuffix(s, d) <==> OnLabels(s, d) {
        if LabelSuffix(s, d) { PlainSuffixIsOnLabels(s, d); }
        if OnLabels(s, d) { OnLabelsIsSuffix(s, d); }
      }
    } else {
      var s := EscapedDotCuts(d);
    }
  }

  /** On such a name the scan finds a key exactly when one is written from its last labels. */
  lemma ScanReadsLabels(domains: map<string, u8>, d: string)
    requires PlainDots(d)
    ensures Scan(domains, d).Some? <==> exists s :: s in domains && OnLabels(s, d) && (s == "" ==> d == "")
  {
    ScanFindsLongest(domains, d);
    SuffixesAreOfLabelsIff(d);
    if s :| s in domains && OnLabels(s, d) && (s == "" ==> d == "") { assert Hits(domains, d, s); }
  }

  /** On another it need not: one label, cut in the middle. */
  lemma ScanCutsLabel()
    ensures Labels("a\\.b") == ["a\\.b"] && Scan(map["b" := 7], "a\\.b") == Some(7)
  {}

  // ----- which keys some query meets -------------------------------------------------------------

  /** The key is one that the scan of d comes to. */
  predicate Meets(key: string, d: string) { LabelSuffix(key, d) && (key == "" ==> d == "") }

  /** The name was not blocked before the key was added. */
  predicate NewlyBlocks(domains: map<string, u8>, allowlist: set<string>, key: string, id: u8, d: string) {
    Verdict(domains, allowlist, d) == None && Verdict(domains[key := id], allowlist, d).Some?
  }

  lemma NewlyBlocksIff(domains: map<string, u8>, allowlist: set<string>, key: string, id: u8, d: string)
    ensures NewlyBlocks(domains, allowlist, key, id, d) <==>
            d !in allowlist && Scan(domains, d) == None && Meets(key, d)
  {
    var more := domains[key := id];
    ScanFindsLongest(domains, d);
    ScanFindsLongest(more, d);
    if s :| Hits(more, d, s) { assert s != key ==> Hits(domains, d, s); }
    if Meets(key, d) { assert Hits(more, d, key); }
  }

  lemma UnblockedSuffix(domains: map<string, u8>, s: string, d: string)
    requires LabelSuffix(s, d) && (s == "" ==> d == "") && Scan(domains, d) == None
    ensures Scan(domains, s) == None
  {
    ScanFindsLongest(domains, s);
    ScanFindsLongest(domains, d);
    if t :| Hits(domains, s, t) {
      SuffixTransitive(t, s, d);
      assert Hits(domains, d, t);
    }
  }

  /** Where the first unescaped dot of head.key is: in head, right after it, or the first one of key. */
  lemma {:induction false} FirstDotAround(head: string, key: string)
    ensures match FirstDot(head + "." + key)
            case None => FirstDot(key) == None
            case Some(i) => i <= |head| || FirstDot(key) == Some(i - |head| - 1)
    decreases |head|
  {
    var s := head + "." + key;
    if head != "" && head[0] != '.' {
      var unit := if head[0] == '\\' then 2 else 1;
      if unit > |head| {
        assert s[2..] == key;
      } else {
        assert s[unit..] == head[unit..] + "." + key;
        FirstDotAround(head[unit..], key);
      }
    }
  }

  /** The labels of head.key are those of key, or all but its first, which a piece of head is escaped onto. */
  ghost predicate SplitsAs(head: string, whole: seq<string>, labels: seq<string>, pre: seq<string>, h: string)
    requires labels != []
  {
    whole == pre + labels || (head == Render(pre) + h && whole == pre + [h + "." + labels[0]] + labels[1..])
  }

  lemma {:induction false} SplitAtDot(head: string, key: string) returns (pre: seq<string>, h: string)
    ensures SplitsAs(head, Labels(head + "." + key), Labels(key), pre, h)
    decreases |head|
  {
    FirstDotAround(head, key);
    match FirstDot(head + "." + key)
    case None =>
      pre, h := [], head;
      LabelUnderHead(head, key, []);
    case Some(i) =>
      if i < |head| {
        var first, rest := head[..i], head[i + 1..];
        CutInHead(head, key, i);
        FirstLabelIs(head + "." + key, first, rest + "." + key);
        pre, h := SplitAtDot(rest, key);
        SplitUnderHead(first, rest, Labels(rest + "." + key), Labels(key), pre, h);
        pre := [first] + pre;
      } else if i == |head| {
        pre, h := [head], head;
        FirstLabelIs(head + "." + key, head, key);
      } else {
        pre, h := [], head;
        SplitInKey(head, key, key[..i - |head| - 1], key[i - |head|..]);
      }
  }

  lemma FirstLabelIs(s: string, first: string, rest: string)
    requires FirstDot(s) == Some(|first|) && s == first + "." + rest
    ensures Labels(s) == [first] + Labels(rest)
  {
    assert s[..|first|] == first && s[|first| + 1..] == rest;
  }

  lemma SplitInKey(head: string, key: string, first: string, rest: string)
    requires FirstDot(key) == Some(|first|) && key == first + "." + rest
    requires FirstDot(head + "." + key) == Some(|head| + 1 + |first|)
    ensures SplitsAs(head, Labels(head + "." + key), Labels(key), [], head)
  {
    var longer := head + "." + first;
    assert head + "." + key == longer + "." + rest;
    FirstLabelIs(key, first, rest);
    FirstLabelIs(head + "." + key, longer, rest);
    LabelUnderHead(head, first, Labels(rest));
  }

  lemma CutInHead(head: string, key: string, i: nat)
    requires i < |head| && head[i] == '.'
    ensures head + "." + key == head[..i] + "." + (head[i + 1..] + "." + key)
    ensures head == head[..i] + "." + head[i + 1..]
  {}

  lemma LabelUnderHead(head: string, first: string, tail: seq<string>)
    ensures SplitsAs(head, [head + "." + first] + tail, [first] + tail, [], head)
  {
    assert ([first] + tail)[1..] == tail;
    assert [] + [head + "." + first] + tail == [head + "." + first] + tail;
    assert Render([]) + head == head;
  }

  lemma SplitUnderHead(first: string, rest: string, whole: seq<string>, labels: seq<string>, pre: seq<string>,
                       h: string)
    requires labels != [] && SplitsAs(rest, whole, labels, pre, h)
    ensures SplitsAs(first + "." + rest, [first] + whole, labels, [first] + pre, h)
  {
    if whole == pre + labels {
      assert [first] + (pre + labels) == ([first] + pre) + labels;
    } else {
      var middle, tail := [h + "." + labels[0]], labels[1..];
      assert [first] + (pre + middle + tail) == ([first] + pre) + middle + tail;
      assert ([first] + pre)[1..] == pre;
      assert first + "." + (Render(pre) + h) == (first + "." + Render(pre)) + h;
    }
  }

  /** The label is one that queries have as the part after an escaped dot, of a name that is not blocked already. */
  ghost predicate EscapedOnto(sp: Spelling, domains: map<string, u8>, key: string, first: string, h: string) {
    Folded(sp, h + "." + first) && Scan(domains, h + "." + key) == None
  }

  /** These labels of the key but the first are ones that queries have, and the first is, or is part of one. */
  ghost predicate LabelsMet(sp: Spelling, domains: map<string, u8>, key: string, labels: seq<string>)
    requires labels != []
  {
    AllFolded(sp, labels[1..]) && (Folded(sp, labels[0]) || exists h :: EscapedOnto(sp, domains, key, labels[0], h))
  }

  /** Some name that queries can have, and that was not blocked, ends in the key. */
  ghost predicate BlocksSome(sp: Spelling, domains: map<string, u8>, key: string) {
    Scan(domains, key) == None && (key == "" || LabelsMet(sp, domains, key, Labels(key)))
  }

  lemma FoldedParts(sp: Spelling, a: seq<string>, b: seq<string>)
    ensures AllFolded(sp, a + b) <==> AllFolded(sp, a) && AllFolded(sp, b)
  {
    assert forall t :: t in a + b <==> t in a || t in b;
  }

  lemma FoldedHead(sp: Spelling, labels: seq<string>)
    requires labels != []
    ensures AllFolded(sp, labels) <==> Folded(sp, labels[0]) && AllFolded(sp, labels[1..])
  {
    FoldedParts(sp, [labels[0]], labels[1..]);
    assert labels == [labels[0]] + labels[1..];
  }

  lemma BeforeKey(key: string, d: string) returns (head: string)
    requires LabelSuffix(key, d) && key != d
    ensures d == head + "." + key
  {
    head := d[..|d| - |key| - 1];
  }

  lemma MetKeyBlocksSome(sp: Spelling, domains: map<string, u8>, key: string, d: string)
    requires Spellable(sp, d) && Meets(key, d) && Scan(domains, d) == None
    ensures BlocksSome(sp, domains, key)
  {
    UnblockedSuffix(domains, key, d);
    if key == d {
      FoldedHead(sp, Labels(key));
    } else {
      var head := BeforeKey(key, d);
      var pre, h := SplitAtDot(head, key);
      MetInLongerName(sp, domains, key, head, Labels(d), Labels(key), pre, h);
    }
  }

  lemma MetInLongerName(sp: Spelling, domains: map<string, u8>, key: string, head: string,
                        whole: seq<string>, labels: seq<string>, pre: seq<string>, h: string)
    requires key != "" && Scan(domains, head + "." + key) == None
    requires labels != [] && AllFolded(sp, whole) && SplitsAs(head, whole, labels, pre, h)
    ensures LabelsMet(sp, domains, key, labels)
  {
    if whole == pre + labels {
      FoldedParts(sp, pre, labels);
      FoldedHead(sp, labels);
    } else {
      var middle := [h + "." + labels[0]];
      FoldedParts(sp, pre + middle, labels[1..]);
      FoldedParts(sp, pre, middle);
      assert middle[0] in middle;
      assert head + "." + key == Render(pre) + (h + "." + key);
      SuffixAfterLabels(head + "." + key, pre, h + "." + key);
      UnblockedSuffix(domains, h + "." + key, head + "." + key);
      assert EscapedOnto(sp, domains, key, labels[0], h);
    }
  }

  lemma SuffixAfterLabels(d: string, pre: seq<string>, s: string)
    requires d == Render(pre) + s
    ensures LabelSuffix(s, d)
  {
    if pre == [] {
      assert d == s;
    } else {
      RenderEndsInDot(pre);
      assert d[|d| - |s| - 1] == Render(pre)[|Render(pre)| - 1] && d[|d| - |s|..] == s;
    }
  }

  lemma LongerText(h: string, first: string, tail: seq<string>, key: string)
    requires Render([first] + tail) == key + "."
    ensures Render([h + "." + first] + tail) == (h + "." + key) + "."
  {
    assert ([first] + tail)[1..] == tail && ([h + "." + first] + tail)[1..] == tail;
    assert h + "." + (first + "." + Render(tail)) == (h + "." + first) + "." + Render(tail);
    assert h + "." + (key + ".") == (h + "." + key) + ".";
  }

  lemma LongerNameIsSpellable(sp: Spelling, key: string, h: string)
    requires IsSpelling(sp) && AllFolded(sp, Labels(key)[1..]) && Folded(sp, h + "." + Labels(key)[0])
    ensures Spellable(sp, h + "." + key)
  {
    RenderOfLabels(key);
    var labels := Labels(key);
    assert [labels[0]] + labels[1..] == labels;
    LongerText(h, labels[0], labels[1..], key);
    TextIsSpellable(sp, [h + "." + labels[0]] + labels[1..], h + "." + key);
  }

  lemma TextIsSpellable(sp: Spelling, labels: seq<string>, d: string)
    requires IsSpelling(sp) && labels != [] && Render(labels) == d + "."
    requires Folded(sp, labels[0]) && AllFolded(sp, labels[1..])
    ensures Spellable(sp, d)
  {
    FoldedHead(sp, labels);
    AllFoldedAreWhole(sp, labels);
    LabelsOfRender(labels);
    DropDotOfConcat(d, ".");
    assert DropFinalDot(".") == "";
  }

  lemma LongerNameMeets(key: string, h: string)
    requires key != ""
    ensures Meets(key, h + "." + key)
  {
    var d := h + "." + key;
    assert d[|d| - |key|..] == key && d[|d| - |key| - 1] == '.';
  }

  lemma BlocksSomeMet(sp: Spelling, domains: map<string, u8>, key: string) returns (d: string)
    requires IsSpelling(sp) && BlocksSome(sp, domains, key)
    ensures Spellable(sp, d) && Meets(key, d) && Scan(domains, d) == None
  {
    d := key;
    if key != "" {
      FoldedHead(sp, Labels(key));
      if !Folded(sp, Labels(key)[0]) {
        var h :| EscapedOnto(sp, domains, key, Labels(key)[0], h);
        LongerNameIsSpellable(sp, key, h);
        LongerNameMeets(key, h);
        d := h + "." + key;
      }
    }
  }

  /** Adding a key blocks some query that was not blocked before exactly when the key itself was not, its labels are
      ones that queries have, the first of them perhaps as what follows an escaped dot of a label that queries have,
      under which nothing was blocked either. */
  lemma BlocklistKeyBlocksIff(sp: Spelling, domains: map<string, u8>, key: string, id: u8)
    requires IsSpelling(sp)
    ensures (exists raw :: Rendered(sp, raw) && NewlyBlocks(domains, {}, key, id, QueryName(raw)))
            <==> BlocksSome(sp, domains, key)
  {
    if raw :| Rendered(sp, raw) && NewlyBlocks(domains, {}, key, id, QueryName(raw)) {
      NewlyBlocksIff(domains, {}, key, id, QueryName(raw));
      RenderedNamesAreSpellable(sp, raw);
      MetKeyBlocksSome(sp, domains, key, QueryName(raw));
    }
    if BlocksSome(sp, domains, key) {
      var d := BlocksSomeMet(sp, domains, key);
      SpellableNameIsRendered(sp, d);
      var raw :| Rendered(sp, raw) && QueryName(raw) == d;
      NewlyBlocksIff(domains, {}, key, id, QueryName(raw));
    }
  }

  /** A query comes to a key at all exactly when the key's labels are such. */
  lemma BlocklistKeyMeetsQueryIff(sp: Spelling, key: string)
    requires IsSpelling(sp)
    ensures (exists raw :: Rendered(sp, raw) && Meets(key, QueryName(raw))) <==>
            key == "" ||
            (AllFolded(sp, Labels(key)[1..]) &&
             (Folded(sp, Labels(key)[0]) || exists h :: Folded(sp, h + "." + Labels(key)[0])))
  {
    BlocklistKeyBlocksIff(sp, map[], key, 0);
    forall d ensures Scan(map[], d) == None { ScanFindsLongest(map[], d); }
    forall raw ensures NewlyBlocks(map[], {}, key, 0, QueryName(raw)) <==> Meets(key, QueryName(raw)) {
      NewlyBlocksIff(map[], {}, key, 0, QueryName(raw));
    }
    assert forall h :: EscapedOnto(sp, map[], key, Labels(key)[0], h) <==> Folded(sp, h + "." + Labels(key)[0]);
  }

  /** From the line of a list: one more line blocks some query that the lines before it do not exactly when it parses
      to such a key. */
  lemma BlocklistLineBlocksIff(sp: Spelling, lines: seq<string>, line: string, id: u8)
    requires IsSpelling(sp)
    ensures (exists raw :: Rendered(sp, raw) && Verdict(InsertAll(Entries(lines, id)), {}, QueryName(raw)) == None &&
                           Verdict(InsertAll(Entries(lines + [line], id)), {}, QueryName(raw)).Some?)
            <==> ParseLine(line).Some? && BlocksSome(sp, InsertAll(Entries(lines, id)), ParseLine(line).value)
  {
    var before, after := Entries(lines, id), Entries(lines + [line], id);
    assert (lines + [line])[..|lines|] == lines;
    match ParseLine(line)
    case None => assert after == before;
    case Some(key) =>
      assert after == before + [(key, id)];
      assert after[..|before|] == before;
      BlocklistKeyBlocksIff(sp, InsertAll(before), key, id);
      assert forall raw :: NewlyBlocks(InsertAll(before), {}, key, id, QueryName(raw)) <==>
                             Verdict(InsertAll(before), {}, QueryName(raw)) == None &&
                             Verdict(InsertAll(after), {}, QueryName(raw)).Some?;
  }

  /** A key with a final dot is met by no query: its last label is empty. */
  lemma FinalDotKeyIsNeverMet(sp: Spelling, base: string, raw: string)
    requires IsSpelling(sp) && TakesDot(base) && Rendered(sp, raw)
    ensures !LabelSuffix(base + ".", QueryName(raw))
  {
    BlocklistKeyMeetsQueryIff(sp, base + ".");
    FinalDotLeavesEmptyLabel(base);
    EmptyIsNoLabel(sp);
    assert !Meets(base + ".", QueryName(raw));
  }
}
