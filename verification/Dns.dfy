/** Names, record types and resource records (section 3.2.1 of RFC 1035). */
module Dns {
  import opened Prelude

  datatype RecordType = A | AAAA | Other(code: nat)

  datatype RData = V4(addr: string) | V6(addr6: string) | Opaque(code: nat, bytes: seq<u8>)

  type u32 = x: int | 0 <= x < 0x1_0000_0000

  datatype Record = Record(name: string, ttl: u32, data: RData) {
    function RecordType(): RecordType {
      match data
      case V4(_) => A
      case V6(_) => AAAA
      case Opaque(code, _) => Other(code)
    }
  }

  datatype IpAddr = Ipv4(addr: string) | Ipv6(addr: string)

  /** What a resolver hands back: the records and the answering upstream's url, or an error. */
  datatype Resolution = Resolved(records: seq<Record>, upstream: string) | Failed(error: string)

  function LowerChar(c: char): char {
    if 'A' <= c <= 'Z' then (c as int + 32) as char else c
  }

  function Lower(s: string): string { seq(|s|, i requires 0 <= i < |s| => LowerChar(s[i])) }

  function DropFinalDot(s: string): string {
    if s != "" && s[|s| - 1] == '.' then s[..|s| - 1] else s
  }

  /** The name a query is processed under: one trailing dot dropped, ASCII letters folded
      (section 2.3.3 of RFC 1035). */
  function QueryName(raw: string): string { Lower(DropFinalDot(raw)) }

  /** Capital letters have become the small ones, 32 places on, and everything else is as it was. */
  predicate IsFoldedFrom(t: string, s: string) {
    && |t| == |s|
    && forall k :: 0 <= k < |s| ==>
                     if 'A' <= s[k] <= 'Z' then t[k] as int == s[k] as int + 32 else t[k] == s[k]
  }

  lemma LowerFolds(s: string)
    ensures IsFoldedFrom(Lower(s), s)
  {}

  /** A query's name, letter by letter: what was asked without one final dot, folded. */
  lemma QueryNameLetters(raw: string)
    ensures raw != "" && raw[|raw| - 1] == '.' ==> IsFoldedFrom(QueryName(raw), raw[..|raw| - 1])
    ensures raw == "" || raw[|raw| - 1] != '.' ==> IsFoldedFrom(QueryName(raw), raw)
  {
    LowerFolds(DropFinalDot(raw));
  }

  lemma LowerIdempotent(s: string)
    ensures Lower(Lower(s)) == Lower(s)
  {}

  lemma LowerConcat(a: string, b: string)
    ensures Lower(a + b) == Lower(a) + Lower(b)
  {}

  lemma QueryNameOfLower(raw: string, lowered: string)
    requires lowered == Lower(raw)
    ensures QueryName(raw) == DropFinalDot(lowered)
  {
    if raw != "" {
      var n := |raw| - 1;
      assert lowered[n] == LowerChar(raw[n]);
      assert lowered[n] == '.' <==> raw[n] == '.';
      assert Lower(raw[..n]) == lowered[..n];
    }
  }

  /** Two spellings that differ only in letter case, or also in a final dot, are one query. */
  lemma QueryNameFoldsCase(raw: string, other: string)
    requires Lower(raw) == Lower(other) || (Lower(raw) == Lower(other) + "." && DropFinalDot(other) == other)
    ensures QueryName(raw) == QueryName(other)
  {
    QueryNameOfLower(raw, Lower(raw));
    QueryNameOfLower(other, Lower(other));
    if Lower(raw) == Lower(other) + "." {
      assert DropFinalDot(Lower(other) + ".") == Lower(other);
    }
  }

  // ----- names as they are written ---------------------------------------------------

  /** The first dot that no backslash escapes: where the first label ends. */
  function FirstDot(s: string): (r: Option<nat>)
    ensures r.Some? ==> r.value < |s| && s[r.value] == '.'
    decreases |s|
  {
    if s == "" then None
    else if s[0] == '.' then Some(0)
    else
      var unit := if s[0] == '\\' && |s| > 1 then 2 else 1;
      match FirstDot(s[unit..])
      case None => None
      case Some(i) => Some(i + unit)
  }

  function Labels(s: string): (labels: seq<string>)
    ensures labels != []
    decreases |s|
  {
    match FirstDot(s)
    case None => [s]
    case Some(i) => [s[..i]] + Labels(s[i + 1..])
  }

  /** The text of one label: not empty, its own dots escaped, no escape left open. */
  predicate WholeLabel(t: string) { t != "" && FirstDot(t + ".") == Some(|t|) }

  /** The texts that labels are written as. */
  type Spelling = string -> bool

  /** What is relied on: each text is one whole label. */
  ghost predicate IsSpelling(sp: Spelling) { forall t :: sp(t) ==> WholeLabel(t) }

  ghost predicate Spelled(sp: Spelling, labels: seq<string>) { forall t :: t in labels ==> sp(t) }

  /** What some label's text is folded to. */
  ghost predicate Folded(sp: Spelling, t: string) { exists u :: sp(u) && Lower(u) == t }

  ghost predicate AllFolded(sp: Spelling, labels: seq<string>) { forall t :: t in labels ==> Folded(sp, t) }

  /** Each label followed by a dot. */
  function Render(labels: seq<string>): string {
    if labels == [] then "" else labels[0] + "." + Render(labels[1..])
  }

  /** A fully qualified name as it is written: the root, or labels each followed by a dot. */
  ghost predicate Rendered(sp: Spelling, raw: string) {
    raw == "." || exists labels :: labels != [] && Spelled(sp, labels) && raw == Render(labels)
  }

  lemma {:induction false} LabelEndsAtItsDot(t: string, rest: string)
    requires FirstDot(t + ".") == Some(|t|)
    ensures FirstDot(t + "." + rest) == Some(|t|) && FirstDot(t) == None
    decreases |t|
  {
    if t != "" {
      var unit := if t[0] == '\\' then 2 else 1;
      assert unit <= |t| by { assert FirstDot((t + ".")[unit..]) == Some(|t| - unit); }
      SkipUnit(t, rest, unit);
      LabelEndsAtItsDot(t[unit..], rest);
    }
  }

  lemma SkipUnit(t: string, rest: string, unit: nat)
    requires unit <= |t|
    ensures (t + ".")[unit..] == t[unit..] + "."
    ensures (t + "." + rest)[unit..] == t[unit..] + "." + rest
  {}

  lemma RenderEndsInDot(labels: seq<string>)
    requires labels != []
    ensures Render(labels) != "" && Render(labels)[|Render(labels)| - 1] == '.'
  {
    if |labels| > 1 { RenderEndsInDot(labels[1..]); }
  }

  /** Writing labels down and splitting the text gives the labels back. */
  lemma {:induction false} LabelsOfRender(labels: seq<string>)
    requires labels != [] && forall t :: t in labels ==> WholeLabel(t)
    ensures Labels(DropFinalDot(Render(labels))) == labels
  {
    assert WholeLabel(labels[0]);
    if |labels| == 1 {
      assert DropFinalDot(Render(labels)) == labels[0] by { DropDotOfRender(labels); }
      OneLabel(labels[0]);
      assert labels == [labels[0]];
    } else {
      var tail := DropFinalDot(Render(labels[1..]));
      assert DropFinalDot(Render(labels)) == labels[0] + "." + tail by { DropDotOfRender(labels); }
      assert Labels(tail) == labels[1..] by { LabelsOfRender(labels[1..]); }
      LabelsFromFirst(labels[0], tail);
      assert labels == [labels[0]] + labels[1..];
    }
  }

  lemma OneLabel(t: string)
    requires WholeLabel(t)
    ensures Labels(t) == [t]
  {
    LabelEndsAtItsDot(t, "");
  }

  lemma DropDotOfRender(labels: seq<string>)
    requires labels != []
    ensures DropFinalDot(Render(labels)) ==
            if |labels| == 1 then labels[0] else labels[0] + "." + DropFinalDot(Render(labels[1..]))
  {
    if |labels| == 1 {
      DropDotOfConcat(labels[0], ".");
      assert Render(labels) == labels[0] + "." && DropFinalDot(".") == "";
    } else {
      RenderEndsInDot(labels[1..]);
      DropDotOfConcat(labels[0] + ".", Render(labels[1..]));
    }
  }

  lemma DropDotOfConcat(a: string, b: string)
    requires b != "" && b[|b| - 1] == '.'
    ensures DropFinalDot(a + b) == a + DropFinalDot(b)
  {
    assert (a + b)[|a + b| - 1] == b[|b| - 1];
  }

  lemma LabelsFromFirst(t: string, tail: string)
    requires WholeLabel(t)
    ensures Labels(t + "." + tail) == [t] + Labels(tail)
  {
    LabelEndsAtItsDot(t, tail);
    assert (t + "." + tail)[..|t|] == t && (t + "." + tail)[|t| + 1..] == tail;
  }

  /** And the other way round, for any text at all. */
  lemma {:induction false} RenderOfLabels(s: string)
    ensures Labels(s) != [] && Render(Labels(s)) == s + "."
    decreases |s|
  {
    match FirstDot(s)
    case None => assert Render([s]) == s + "." + Render([]);
    case Some(i) =>
      RenderOfLabels(s[i + 1..]);
      assert Labels(s)[1..] == Labels(s[i + 1..]);
      assert s[..i] + "." + (s[i + 1..] + ".") == s + ".";
  }

  function LowerAll(labels: seq<string>): seq<string> {
    seq(|labels|, i requires 0 <= i < |labels| => Lower(labels[i]))
  }

  lemma {:induction false} LowerOfRender(labels: seq<string>)
    ensures Lower(Render(labels)) == Render(LowerAll(labels))
  {
    if labels != [] {
      LowerOfRender(labels[1..]);
      LowerConcat(labels[0] + ".", Render(labels[1..]));
      LowerConcat(labels[0], ".");
      assert LowerAll(labels)[1..] == LowerAll(labels[1..]);
    }
  }

  lemma {:induction false} FoldingKeepsDots(s: string)
    ensures FirstDot(Lower(s)) == FirstDot(s)
    decreases |s|
  {
    if s != "" && s[0] != '.' {
      var unit := if s[0] == '\\' && |s| > 1 then 2 else 1;
      assert Lower(s)[unit..] == Lower(s[unit..]);
      FoldingKeepsDots(s[unit..]);
    }
  }

  lemma FoldedIsWhole(sp: Spelling, t: string)
    requires IsSpelling(sp) && Folded(sp, t)
    ensures WholeLabel(t) && Lower(t) == t
  {
    var u :| sp(u) && Lower(u) == t;
    LowerConcat(u, ".");
    assert Lower(".") == ".";
    FoldingKeepsDots(u + ".");
    LowerIdempotent(u);
  }

  lemma AllFoldedAreWhole(sp: Spelling, labels: seq<string>)
    requires IsSpelling(sp) && AllFolded(sp, labels)
    ensures forall t :: t in labels ==> WholeLabel(t)
  {
    forall t | t in labels ensures WholeLabel(t) { FoldedIsWhole(sp, t); }
  }

  lemma {:induction false} Unfold(sp: Spelling, labels: seq<string>) returns (raws: seq<string>)
    requires AllFolded(sp, labels)
    ensures Spelled(sp, raws) && LowerAll(raws) == labels
  {
    if labels == [] {
      raws := [];
    } else {
      assert Folded(sp, labels[0]);
      var u :| sp(u) && Lower(u) == labels[0];
      var rest := Unfold(sp, labels[1..]);
      raws := [u] + rest;
      assert LowerAll(raws) == [labels[0]] + LowerAll(rest);
    }
  }

  /** The root, or made of labels that a query's labels are folded to: so in lower case and without empty labels. */
  ghost predicate Spellable(sp: Spelling, key: string) { key == "" || AllFolded(sp, Labels(key)) }

  lemma RenderedNamesAreSpellable(sp: Spelling, raw: string)
    requires IsSpelling(sp) && Rendered(sp, raw)
    ensures Spellable(sp, QueryName(raw))
  {
    if raw != "." {
      var labels :| labels != [] && Spelled(sp, labels) && raw == Render(labels);
      var lowered := LowerAll(labels);
      forall i | 0 <= i < |lowered| ensures Folded(sp, lowered[i]) { assert labels[i] in labels; }
      AllFoldedAreWhole(sp, lowered);
      LowerOfRender(labels);
      QueryNameOfLower(raw, Render(lowered));
      LabelsOfRender(lowered);
    }
  }

  lemma SpellableNameIsRendered(sp: Spelling, key: string)
    requires Spellable(sp, key)
    ensures exists raw :: Rendered(sp, raw) && QueryName(raw) == key
  {
    if key == "" {
      assert Rendered(sp, ".") && QueryName(".") == key;
    } else {
      RenderOfLabels(key);
      var raws := Unfold(sp, Labels(key));
      LowerOfRender(raws);
      QueryNameOfLower(Render(raws), key + ".");
      assert DropFinalDot(key + ".") == key;
      assert Rendered(sp, Render(raws));
    }
  }

  /** Configured names are compared as written, so an entry (local record or allowlist line) is met by some
      query exactly when each of its labels is one that a query's labels are folded to. */
  lemma ConfiguredNameReachable(sp: Spelling, key: string)
    requires IsSpelling(sp)
    ensures (exists raw :: Rendered(sp, raw) && QueryName(raw) == key) <==> Spellable(sp, key)
  {
    forall raw | Rendered(sp, raw) && QueryName(raw) == key ensures Spellable(sp, key) {
      RenderedNamesAreSpellable(sp, raw);
    }
    if Spellable(sp, key) { SpellableNameIsRendered(sp, key); }
  }

  /** So an upper-case letter is one thing that keeps a configured name from being met. */
  lemma SpellableIsLower(sp: Spelling, key: string)
    requires IsSpelling(sp) && Spellable(sp, key)
    ensures Lower(key) == key
  {
    if key != "" {
      var labels := Labels(key);
      forall i | 0 <= i < |labels| ensures LowerAll(labels)[i] == labels[i] {
        assert labels[i] in labels;
        FoldedIsWhole(sp, labels[i]);
      }
      assert LowerAll(labels) == labels;
      RenderOfLabels(key);
      LowerOfRender(labels);
      LowerConcat(key, ".");
      assert Lower(key + ".")[..|key|] == Lower(key) && (key + ".")[..|key|] == key;
    }
  }

  /** A dot written after this separates labels: no backslash escapes it. */
  predicate TakesDot(base: string) { base == "" || base[|base| - 1] != '\\' }

  lemma {:induction false} FinalDotLeavesEmptyLabel(base: string)
    requires TakesDot(base)
    ensures "" in Labels(base + ".")[1..]
    decreases |base|
  {
    var s := base + ".";
    FinalDotIsFound(base);
    var i := FirstDot(s).value;
    if i == |base| {
      assert s[i + 1..] == "";
      assert Labels("") == [""];
      assert Labels(s)[1..] == [""];
    } else {
      assert s[i + 1..] == base[i + 1..] + ".";
      FinalDotLeavesEmptyLabel(base[i + 1..]);
      assert Labels(s)[1..] == Labels(s[i + 1..]);
    }
  }

  lemma {:induction false} FinalDotIsFound(base: string)
    requires TakesDot(base)
    ensures FirstDot(base + ".").Some?
    decreases |base|
  {
    if base != "" && base[0] != '.' {
      var unit := if base[0] == '\\' then 2 else 1;
      assert unit <= |base|;
      assert (base + ".")[unit..] == base[unit..] + ".";
      FinalDotIsFound(base[unit..]);
    }
  }

  lemma EmptyIsNoLabel(sp: Spelling)
    requires IsSpelling(sp)
    ensures !Folded(sp, "")
  {
    if Folded(sp, "") { FoldedIsWhole(sp, ""); }
  }

  /** A configured name that is written with its final dot is met by no query, since queries lose theirs. */
  lemma FinalDotIsNeverMet(sp: Spelling, base: string, raw: string)
    requires IsSpelling(sp) && TakesDot(base) && Rendered(sp, raw)
    ensures QueryName(raw) != base + "."
  {
    FinalDotLeavesEmptyLabel(base);
    RenderedNamesAreSpellable(sp, raw);
    EmptyIsNoLabel(sp);
  }

  /** Such as this one, lower-case and well-formed as it is. */
  lemma RouterLanWithDotIsNeverMet(sp: Spelling, raw: string)
    requires IsSpelling(sp) && Rendered(sp, raw)
    ensures QueryName(raw) != "router.lan." && Lower("router.lan.") == "router.lan."
  {
    FinalDotIsNeverMet(sp, "router.lan", raw);
    assert "router.lan" + "." == "router.lan.";
  }
}
