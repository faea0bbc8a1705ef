/** Parsing blocklists and merging the downloads, which complete in any order, into one matcher. */
module BlocklistManager {
  import opened Prelude
  import opened Permutations
  import opened Dns
  import opened DomainMatcher
  import Stats

  // ----- parsing -----------------------------------------------------------------

  /** White space as Unicode has it, which `str::trim` removes. */
  predicate IsSpace(c: char) {
    c == ' ' || '\t' <= c <= '\r' || c in SPACES || '\U{2000}' <= c <= '\U{200A}'
  }

  const SPACES := ['\U{85}', '\U{A0}', '\U{1680}', '\U{2028}', '\U{2029}', '\U{202F}', '\U{205F}', '\U{3000}']

  function TrimStart(s: string): string {
    if s != "" && IsSpace(s[0]) then TrimStart(s[1..]) else s
  }

  function TrimEnd(s: string): string {
    if s != "" && IsSpace(s[|s| - 1]) then TrimEnd(s[..|s| - 1]) else s
  }

  predicate Trimmed(s: string) { s != "" ==> !IsSpace(s[0]) && !IsSpace(s[|s| - 1]) }

  function ParseLine(line: string): Option<string> {
    var text := TrimEnd(TrimStart(line));
    if text == "" || text[0] == '#' then None else Some(Lower(text))
  }

  lemma {:induction false} TrimStartTrims(s: string)
    ensures TrimStart(s) != "" ==> !IsSpace(TrimStart(s)[0])
  {
    if s != "" && IsSpace(s[0]) { TrimStartTrims(s[1..]); }
  }

  lemma {:induction false} TrimEndTrims(s: string)
    ensures TrimEnd(s) != "" ==> !IsSpace(TrimEnd(s)[|TrimEnd(s)| - 1])
    ensures TrimEnd(s) <= s
  {
    if s != "" && IsSpace(s[|s| - 1]) { TrimEndTrims(s[..|s| - 1]); }
  }

  lemma LowerCharKeepsKind(c: char)
    ensures IsSpace(LowerChar(c)) <==> IsSpace(c)
    ensures LowerChar(c) == '#' <==> c == '#'
  {}

  /** A parsed key is never empty, trimmed, folded and no comment; and exactly these strings are
      kept as they are, so parsing is a projection onto them. */
  lemma ParseLineNormalises(line: string)
    ensures ParseLine(line).Some? ==>
              var s := ParseLine(line).value;
              s != "" && Trimmed(s) && Lower(s) == s && s[0] != '#' && ParseLine(s) == Some(s)
  {
    var text := TrimEnd(TrimStart(line));
    TrimStartTrims(line);
    TrimEndTrims(TrimStart(line));
    if text != "" && text[0] != '#' {
      var s := Lower(text);
      LowerIdempotent(text);
      LowerCharKeepsKind(text[0]);
      LowerCharKeepsKind(text[|text| - 1]);
      assert TrimStart(s) == s && TrimEnd(s) == s;
    }
  }

  ghost predicate Blank(s: string) { forall c :: c in s ==> IsSpace(c) }

  /** The line's text is t: t with white space around it, and none at its ends. */
  ghost predicate HasText(line: string, t: string) {
    t != "" && !IsSpace(t[0]) && !IsSpace(t[|t| - 1]) &&
    exists pre, post :: Blank(pre) && Blank(post) && line == pre + t + post
  }

  lemma {:induction false} TrimStartSplits(s: string) returns (pre: string)
    ensures Blank(pre) && s == pre + TrimStart(s)
  {
    if s != "" && IsSpace(s[0]) {
      var rest := TrimStartSplits(s[1..]);
      pre := [s[0]] + rest;
    } else {
      pre := "";
    }
  }

  lemma {:induction false} TrimEndSplits(s: string) returns (post: string)
    ensures Blank(post) && s == TrimEnd(s) + post
  {
    if s != "" && IsSpace(s[|s| - 1]) {
      var rest := TrimEndSplits(s[..|s| - 1]);
      post := rest + [s[|s| - 1]];
      assert s == s[..|s| - 1] + [s[|s| - 1]];
    } else {
      post := "";
    }
  }

  lemma TrimGivesText(line: string)
    ensures var t := TrimEnd(TrimStart(line)); if t == "" then Blank(line) else HasText(line, t)
  {
    var t := TrimEnd(TrimStart(line));
    var pre := TrimStartSplits(line);
    var post := TrimEndSplits(TrimStart(line));
    TrimStartTrims(line);
    TrimEndTrims(TrimStart(line));
    assert line == pre + (t + post) && pre + (t + post) == pre + t + post;
    if t == "" { assert line == pre + post; }
  }

  lemma TextIsUnique(line: string, t: string, t': string)
    requires HasText(line, t) && HasText(line, t')
    ensures t == t'
  {
    var pre, post :| Blank(pre) && Blank(post) && line == pre + t + post;
    var pre', post' :| Blank(pre') && Blank(post') && line == pre' + t' + post';
    TextStartsAt(line, pre, t, post);
    TextStartsAt(line, pre', t', post');
    assert line[|pre|] == t[0] && line[|pre'|] == t'[0];
    assert |pre| == |pre'|;
    assert line[|pre| + |t| - 1] == t[|t| - 1] && line[|pre'| + |t'| - 1] == t'[|t'| - 1];
    assert |t| == |t'|;
    assert t == line[|pre|..|pre| + |t|] && t' == line[|pre'|..|pre'| + |t'|];
  }

  lemma TextStartsAt(line: string, pre: string, t: string, post: string)
    requires Blank(pre) && Blank(post) && line == pre + t + post
    ensures forall k :: 0 <= k < |pre| ==> IsSpace(line[k])
    ensures forall k :: |pre| + |t| <= k < |line| ==> IsSpace(line[k])
  {
    forall k | 0 <= k < |pre| ensures IsSpace(line[k]) { assert line[k] == pre[k] && pre[k] in pre; }
    forall k | |pre| + |t| <= k < |line| ensures IsSpace(line[k]) {
      assert line[k] == post[k - |pre| - |t|] && post[k - |pre| - |t|] in post;
    }
  }

  /** A line is kept exactly if it has a text, white space aside, that is no comment; and what is kept is that text,
      letter by letter in lower case. */
  lemma ParseLineIff(line: string, key: string)
    ensures ParseLine(line) == Some(key) <==>
            exists t :: HasText(line, t) && t[0] != '#' && IsFoldedFrom(key, t)
    ensures ParseLine(line) == None <==> Blank(line) || exists t :: HasText(line, t) && t[0] == '#'
  {
    var text := TrimEnd(TrimStart(line));
    TrimGivesText(line);
    LowerFolds(text);
    forall t | HasText(line, t) ensures t == text && !Blank(line) {
      BlankHasNoText(line, t);
      if text != "" { TextIsUnique(line, t, text); }
    }
    if text != "" && IsFoldedFrom(key, text) { FoldedTextIsUnique(key, Lower(text), text); }
  }

  lemma BlankHasNoText(line: string, t: string)
    requires HasText(line, t)
    ensures !Blank(line)
  {
    var pre, post :| Blank(pre) && Blank(post) && line == pre + t + post;
    assert line[|pre|] == t[0] && line[|pre|] in line;
  }

  lemma FoldedTextIsUnique(a: string, b: string, s: string)
    requires IsFoldedFrom(a, s) && IsFoldedFrom(b, s)
    ensures a == b
  {
    forall k | 0 <= k < |s| ensures a[k] == b[k] {}
  }

  // ----- one download -----------------------------------------------------------------

  datatype Read = Line(text: string) | Broken

  /** A download: the request fails, or the body is read line by line until it ends or breaks. */
  datatype Download = Unreachable | Body(stream: seq<Read>)

  function LinesOf(stream: seq<Read>): seq<string> {
    if stream == [] || stream[0].Broken? then [] else [stream[0].text] + LinesOf(stream[1..])
  }

  function ReadLines(d: Download): seq<string> {
    match d
    case Unreachable => []
    case Body(stream) => LinesOf(stream)
  }

  /** What is read of a body: its lines up to the first read error, or all of them. */
  lemma {:induction false} ReadLinesAre(stream: seq<Read>)
    ensures var lines := ReadLines(Body(stream));
            && |lines| <= |stream| && (|lines| < |stream| ==> stream[|lines|] == Broken)
            && forall k :: 0 <= k < |lines| ==> stream[k] == Line(lines[k])
    ensures ReadLines(Unreachable) == []
  {
    if stream != [] && stream[0].Line? { ReadLinesAre(stream[1..]); }
  }

  ghost predicate Lists(d: Download, s: string) {
    exists l :: l in ReadLines(d) && ParseLine(l) == Some(s)
  }

  /** The entries of the given lines, in order. */
  function Entries(lines: seq<string>, sourceId: u8): seq<(string, u8)> {
    if lines == [] then []
    else
      Entries(lines[..|lines| - 1], sourceId) +
      match ParseLine(lines[|lines| - 1])
      case Some(domain) => [(domain, sourceId)]
      case None => []
  }

  lemma {:induction false} EntriesMembers(lines: seq<string>, sourceId: u8)
    ensures forall e :: e in Entries(lines, sourceId) <==>
                          e.1 == sourceId && exists l :: l in lines && ParseLine(l) == Some(e.0)
  {
    if lines != [] { EntriesMembers(lines[..|lines| - 1], sourceId); }
  }

  method FetchAndParse(d: Download, sourceId: u8) returns (entries: seq<(string, u8)>)
    ensures entries == Entries(ReadLines(d), sourceId)
  {
    entries := [];
    match d
    case Unreachable =>
    case Body(stream) =>
      var i := 0;
      while i < |stream| && stream[i].Line?
        invariant i <= |LinesOf(stream)| && i <= |stream|
        invariant LinesOf(stream)[i..] == LinesOf(stream[i..])
        invariant entries == Entries(LinesOf(stream)[..i], sourceId)
      {
        var line := stream[i].text;
        ghost var lines := LinesOf(stream);
        assert stream[i..][1..] == stream[i + 1..];
        assert lines[i..] == [line] + LinesOf(stream[i + 1..]);
        assert lines[i] == line && lines[i + 1..] == lines[i..][1..];
        assert lines[..i + 1][..i] == lines[..i];
        match ParseLine(line) {
          case Some(domain) => entries := entries + [(domain, sourceId)];
          case None =>
        }
        i := i + 1;
      }
      assert LinesOf(stream)[..i] == LinesOf(stream);
  }

  // ----- merging -----------------------------------------------------------------------

  function SourceId(index: nat): u8 { if index > 255 then 255 else index }

  /** List ids tell the lists apart exactly when there are at most 256. */
  lemma SourceIdsAreUniqueIff(n: nat)
    ensures (forall i: nat, j: nat :: i < j < n ==> SourceId(i) != SourceId(j)) <==> n <= 256
  {
    if n > 256 { assert SourceId(255) == SourceId(256); }
  }

  /** The block counts printed under a list's name are those of its id: for distinct names each list is printed under
      its own name exactly when there are at most 256, and any further one under that of number 255. */
  lemma BlockLabelsAreRightIff(names: seq<string>)
    requires Distinct(names)
    ensures (forall i: nat :: i < |names| ==> Stats.PrintedLabel(names, SourceId(i)) == names[i]) <==> |names| <= 256
    ensures forall i: nat :: 256 <= i < |names| ==> Stats.PrintedLabel(names, SourceId(i)) == names[255]
  {
    if |names| > 256 { assert names[SourceId(256)] != names[256]; }
  }

  function InsertAll(entries: seq<(string, u8)>): map<string, u8> {
    if entries == [] then map[]
    else
      var last := entries[|entries| - 1];
      InsertAll(entries[..|entries| - 1])[last.0 := last.1]
  }

  function Flatten(lists: seq<seq<(string, u8)>>): seq<(string, u8)> {
    if lists == [] then [] else Flatten(lists[..|lists| - 1]) + lists[|lists| - 1]
  }

  /** The parsed lists in the order their downloads complete. */
  function Results(downloads: seq<Download>, completion: seq<nat>): seq<seq<(string, u8)>>
    requires IsPermutation(completion, |downloads|)
  {
    seq(|completion|, k requires 0 <= k < |completion| =>
          Entries(ReadLines(downloads[completion[k]]), SourceId(completion[k])))
  }

  function Merged(downloads: seq<Download>, completion: seq<nat>): map<string, u8>
    requires IsPermutation(completion, |downloads|)
  {
    InsertAll(Flatten(Results(downloads, completion)))
  }

  /** An order in which n downloads can finish when at most `limit` are under way at a time, started in list order:
      the one that finishes at position k has been started by then. */
  predicate Feasible(completion: seq<nat>, n: nat, limit: nat) {
    IsPermutation(completion, n) && forall k :: 0 <= k < |completion| ==> completion[k] < k + limit
  }

  /** The downloads, kept `limit` at a time under way, finishing in the order `completion`. */
  method FetchAll(downloads: seq<Download>, completion: seq<nat>, limit: nat) returns (results: seq<seq<(string, u8)>>)
    requires Feasible(completion, |downloads|, limit)
    ensures results == Results(downloads, completion)
  {
    ghost var expected := Results(downloads, completion);
    results := [];
    var started := 0;
    for k := 0 to |completion|
      invariant k <= started <= |downloads| && started <= k + limit
      invariant results == expected[..k]
    {
      NextIsUnderWay(completion, |downloads|, limit, k);
      started := StartMore(started, k, |downloads|, limit);
      var next := completion[k];
      assert next < started;  // only what is under way can finish
      var entries := FetchAndParse(downloads[next], SourceId(next));
      results := results + [entries];
    }
  }

  lemma NextIsUnderWay(completion: seq<nat>, n: nat, limit: nat, k: nat)
    requires Feasible(completion, n, limit) && k < |completion|
    ensures completion[k] < Min(n, k + limit) && k < Min(n, k + limit)
  {
    assert completion[0] < 0 + limit;
  }

  /** Starts downloads, in order, until n are started or `limit` are under way. */
  method StartMore(before: nat, done: nat, n: nat, limit: nat) returns (started: nat)
    requires done <= before <= n && before <= done + limit
    ensures started == Min(n, done + limit)
  {
    started := before;
    while started < n && started - done < limit
      invariant done <= started <= n && started <= done + limit
    {
      started := started + 1;
    }
  }

  /** The insertion loops; later entries overwrite earlier ones. */
  method MergeResults(results: seq<seq<(string, u8)>>) returns (domains: map<string, u8>, totalCount: nat)
    ensures domains == InsertAll(Flatten(results)) && totalCount == |Flatten(results)|
  {
    domains, totalCount := map[], 0;
    for i := 0 to |results|
      invariant domains == InsertAll(Flatten(results[..i]))
      invariant totalCount == |Flatten(results[..i])|
    {
      var list := results[i];
      ghost var before := Flatten(results[..i]);
      assert results[..i + 1][..i] == results[..i];
      assert before + list[..0] == before;
      for j := 0 to |list|
        invariant domains == InsertAll(before + list[..j])
        invariant totalCount == |before| + j
      {
        var (domain, source) := list[j];
        assert (before + list[..j + 1])[..|before| + j] == before + list[..j];
        domains := domains[domain := source];
        totalCount := totalCount + 1;
      }
      assert list[..|list|] == list;
    }
    assert results[..|results|] == results;
  }

  /** `refresh` */
  method Refresh(downloads: seq<Download>, completion: seq<nat>, limit: nat, allowlistVec: seq<string>)
    returns (m: HashedMatcher, totalCount: nat)
    requires Feasible(completion, |downloads|, limit)
    ensures fresh(m) && m.domains == Merged(downloads, completion)
    ensures forall d :: d in m.allowlist <==> d in allowlistVec
    ensures totalCount == |Flatten(Results(downloads, completion))|
  {
    var results := FetchAll(downloads, completion, limit);
    var domains, count := MergeResults(results);
    totalCount := count;
    m := new HashedMatcher(domains, allowlistVec);
  }

  lemma {:induction false} FlattenMembers(lists: seq<seq<(string, u8)>>)
    ensures forall e :: e in Flatten(lists) <==> exists j :: 0 <= j < |lists| && e in lists[j]
  {
    if lists != [] {
      var n := |lists| - 1;
      FlattenMembers(lists[..n]);
      forall e, j | 0 <= j < |lists| && e in lists[j] ensures e in Flatten(lists) {
        if j < n { assert e in lists[..n][j]; }
      }
    }
  }

  lemma {:induction false} InsertAllMembers(entries: seq<(string, u8)>)
    ensures forall s :: s in InsertAll(entries) ==> (s, InsertAll(entries)[s]) in entries
    ensures forall e :: e in entries ==> e.0 in InsertAll(entries)
  {
    if entries != [] { InsertAllMembers(entries[..|entries| - 1]); }
  }

  /** A key inserted by the tail keeps a value from the tail. */
  lemma {:induction false} TailWins(a: seq<(string, u8)>, b: seq<(string, u8)>, s: string)
    requires exists e :: e in b && e.0 == s
    ensures s in InsertAll(a + b) && (s, InsertAll(a + b)[s]) in b
  {
    var n := |b| - 1;
    assert (a + b)[..|a + b| - 1] == a + b[..n];
    if b[n].0 != s {
      var e :| e in b && e.0 == s;
      assert e in b[..n];
      TailWins(a, b[..n], s);
    }
  }

  // ----- what every merge has in common ---------------------------------------------------

  ghost predicate ListedBy(downloads: seq<Download>, s: string, id: u8) {
    exists i: nat :: i < |downloads| && Lists(downloads[i], s) && id == SourceId(i)
  }

  /** m has every listed domain as a key, each with the id of a download that lists it. */
  ghost predicate Covers(downloads: seq<Download>, m: map<string, u8>) {
    && (forall i: nat, s :: i < |downloads| && Lists(downloads[i], s) ==> s in m)
    && (forall s :: s in m ==> ListedBy(downloads, s, m[s]))
  }

  lemma MergedCovers(downloads: seq<Download>, completion: seq<nat>)
    requires IsPermutation(completion, |downloads|)
    ensures Covers(downloads, Merged(downloads, completion))
  {
    var results := Results(downloads, completion);
    var m := Merged(downloads, completion);
    FlattenMembers(results);
    InsertAllMembers(Flatten(results));
    forall i: nat, s | i < |downloads| && Lists(downloads[i], s) ensures s in m {
      PermutationHits(completion, |downloads|, i);
      var j :| 0 <= j < |completion| && completion[j] == i;
      EntriesMembers(ReadLines(downloads[i]), SourceId(i));
      assert (s, SourceId(i)) in results[j];
      assert (s, SourceId(i)) in Flatten(results);
    }
    forall s | s in m ensures ListedBy(downloads, s, m[s]) {
      assert (s, m[s]) in Flatten(results);
      var j :| 0 <= j < |results| && (s, m[s]) in results[j];
      EntriesMembers(ReadLines(downloads[completion[j]]), SourceId(completion[j]));
      assert Lists(downloads[completion[j]], s);
    }
  }

  // ----- confluence --------------------------------------------------------------------

  /** s is listed by some download and is a label suffix of d. */
  ghost predicate ListedSuffix(downloads: seq<Download>, d: string, s: string) {
    LabelSuffix(s, d) && exists i: nat :: i < |downloads| && Lists(downloads[i], s)
  }

  ghost predicate LongestListedSuffix(downloads: seq<Download>, d: string, s: string) {
    ListedSuffix(downloads, d, s) && forall t :: ListedSuffix(downloads, d, t) ==> |t| <= |s|
  }

  lemma CoveredHits(downloads: seq<Download>, m: map<string, u8>, d: string)
    requires Covers(downloads, m)
    ensures forall s :: Hits(m, d, s) <==> ListedSuffix(downloads, d, s)
  {
    forall s ensures Hits(m, d, s) <==> ListedSuffix(downloads, d, s) {
      if ListedSuffix(downloads, d, s) {
        var i: nat :| i < |downloads| && Lists(downloads[i], s);
        var l :| l in ReadLines(downloads[i]) && ParseLine(l) == Some(s);
        ParseLineNormalises(l);
      }
      if Hits(m, d, s) {
        assert ListedBy(downloads, s, m[s]);
      }
    }
  }

  lemma CoveredVerdict(downloads: seq<Download>, m: map<string, u8>, allowlist: set<string>, d: string)
    requires Covers(downloads, m)
    ensures Verdict(m, allowlist, d).Some? <==>
            d !in allowlist && exists s :: ListedSuffix(downloads, d, s)
    ensures forall s :: Verdict(m, allowlist, d).Some? && LongestListedSuffix(downloads, d, s) ==>
                          ListedBy(downloads, s, Verdict(m, allowlist, d).value)
    ensures Verdict(m, allowlist, d).Some? ==> exists s :: LongestListedSuffix(downloads, d, s)
  {
    CoveredHits(downloads, m, d);
    ScanFindsLongest(m, d);
    assert forall s :: LongestHit(m, d, s) <==> LongestListedSuffix(downloads, d, s);
  }

  /** End to end, for every completion order: a name is blocked exactly when it is not allowlisted and
      the parse of some line read from some download is a label suffix of it; the id is that of a list
      naming the longest such suffix. */
  lemma RefreshVerdict(downloads: seq<Download>, completion: seq<nat>, allowlist: set<string>, d: string)
    requires IsPermutation(completion, |downloads|)
    ensures var v := Verdict(Merged(downloads, completion), allowlist, d);
            && (v.Some? <==> d !in allowlist && exists s :: ListedSuffix(downloads, d, s))
            && (v.Some? ==> exists s :: LongestListedSuffix(downloads, d, s) && ListedBy(downloads, s, v.value))
  {
    MergedCovers(downloads, completion);
    CoveredVerdict(downloads, Merged(downloads, completion), allowlist, d);
  }

  /** No domain is listed under two different source ids. */
  ghost predicate DisjointSources(downloads: seq<Download>) {
    forall i: nat, j: nat, s ::
      i < |downloads| && j < |downloads| && Lists(downloads[i], s) && Lists(downloads[j], s) ==>
        SourceId(i) == SourceId(j)
  }

  /** Whatever the completion orders, two refreshes over the same downloads give the same
      blocked/allowed verdict, and the same id too when the lists are disjoint. */
  lemma RefreshConfluence(downloads: seq<Download>, o: seq<nat>, o': seq<nat>, allowlist: set<string>, d: string)
    requires IsPermutation(o, |downloads|) && IsPermutation(o', |downloads|)
    ensures var v, v' := Verdict(Merged(downloads, o), allowlist, d), Verdict(Merged(downloads, o'), allowlist, d);
            && (v.Some? <==> v'.Some?)
            && (DisjointSources(downloads) ==> v == v')
  {
    var m, m' := Merged(downloads, o), Merged(downloads, o');
    MergedCovers(downloads, o);
    MergedCovers(downloads, o');
    CoveredVerdict(downloads, m, allowlist, d);
    CoveredVerdict(downloads, m', allowlist, d);
    if Verdict(m, allowlist, d).Some? && DisjointSources(downloads) {
      var s :| LongestListedSuffix(downloads, d, s);
      assert ListedBy(downloads, s, Verdict(m, allowlist, d).value);
      assert ListedBy(downloads, s, Verdict(m', allowlist, d).value);
    }
  }

  /** Every download in list order, except that number i finishes last. */
  function Delayed(n: nat, i: nat): (order: seq<nat>)
    requires i < n
    ensures IsPermutation(order, n) && order[n - 1] == i
    ensures forall limit: nat :: limit >= 2 ==> Feasible(order, n, limit)
  {
    seq(n, k requires 0 <= k < n => if k < i then k else if k < n - 1 then k + 1 else i)
  }

  /** One download at a time: they finish in list order. */
  lemma {:induction false} OneAtATimeIsInOrder(completion: seq<nat>, n: nat, k: nat)
    requires Feasible(completion, n, 1) && k <= n
    ensures forall j :: 0 <= j < k ==> completion[j] == j
  {
    if k > 0 {
      OneAtATimeIsInOrder(completion, n, k - 1);
      var last := completion[k - 1];
      assert last < k;
      var m := Min(last, k - 1);
      assert completion[m] == m || m == k - 1;
    }
  }

  lemma LastListWins(lists: seq<seq<(string, u8)>>, s: string, id: u8)
    requires lists != [] && (s, id) in lists[|lists| - 1]
    requires forall e :: e in lists[|lists| - 1] ==> e.1 == id
    ensures s in InsertAll(Flatten(lists)) && InsertAll(Flatten(lists))[s] == id
  {
    var n := |lists| - 1;
    TailWins(Flatten(lists[..n]), lists[n], s);
    assert (s, InsertAll(Flatten(lists))[s]) in lists[n];
  }

  lemma LastDownloadWins(downloads: seq<Download>, i: nat, s: string)
    requires i < |downloads| && Lists(downloads[i], s)
    ensures Verdict(Merged(downloads, Delayed(|downloads|, i)), {}, s) == Some(SourceId(i))
  {
    var results := Results(downloads, Delayed(|downloads|, i));
    EntriesMembers(ReadLines(downloads[i]), SourceId(i));
    assert results[|results| - 1] == Entries(ReadLines(downloads[i]), SourceId(i));
    LastListWins(results, s, SourceId(i));
  }

  /** Every order that the limit admits gives every name the same verdict, id included. */
  ghost predicate OrderIndependent(downloads: seq<Download>, limit: nat) {
    forall o, o', d :: Feasible(o, |downloads|, limit) && Feasible(o', |downloads|, limit) ==>
                         Verdict(Merged(downloads, o), {}, d) == Verdict(Merged(downloads, o'), {}, d)
  }

  /** With at most `limit` downloads at a time, ids are independent of the completion order exactly when downloads
      run one at a time or no domain is listed under two ids. */
  lemma IdsAreOrderIndependentIff(downloads: seq<Download>, limit: nat)
    ensures OrderIndependent(downloads, limit) <==> limit <= 1 || DisjointSources(downloads)
  {
    if limit <= 1 {
      forall o, o', d | Feasible(o, |downloads|, limit) && Feasible(o', |downloads|, limit)
        ensures Verdict(Merged(downloads, o), {}, d) == Verdict(Merged(downloads, o'), {}, d)
      {
        OneAtATimeIsInOrder(o, |downloads|, |downloads|);
        OneAtATimeIsInOrder(o', |downloads|, |downloads|);
        assert o == o';
      }
    } else if DisjointSources(downloads) {
      forall o, o', d | Feasible(o, |downloads|, limit) && Feasible(o', |downloads|, limit)
        ensures Verdict(Merged(downloads, o), {}, d) == Verdict(Merged(downloads, o'), {}, d)
      {
        RefreshConfluence(downloads, o, o', {}, d);
      }
    } else {
      var i: nat, j: nat, s :| i < |downloads| && j < |downloads| && Lists(downloads[i], s) &&
                               Lists(downloads[j], s) && SourceId(i) != SourceId(j);
      LastDownloadWins(downloads, i, s);
      LastDownloadWins(downloads, j, s);
      var o, o' := Delayed(|downloads|, i), Delayed(|downloads|, j);
      assert Feasible(o, |downloads|, limit) && Feasible(o', |downloads|, limit);
      assert Verdict(Merged(downloads, o), {}, s) != Verdict(Merged(downloads, o'), {}, s);
    }
  }

  /** Reading more lines never unblocks a name. */
  lemma MoreLinesStayBlocked(few: seq<Download>, many: seq<Download>, o: seq<nat>, o': seq<nat>,
                             allowlist: set<string>, d: string)
    requires IsPermutation(o, |few|) && IsPermutation(o', |many|)
    requires forall i: nat, s :: i < |few| && Lists(few[i], s) ==>
                                   exists j: nat :: j < |many| && Lists(many[j], s)
    ensures Verdict(Merged(few, o), allowlist, d).Some? ==> Verdict(Merged(many, o'), allowlist, d).Some?
  {
    var m, m' := Merged(few, o), Merged(many, o');
    MergedCovers(few, o);
    MergedCovers(many, o');
    forall s | s in m ensures s in m' {
      assert ListedBy(few, s, m[s]);
      var i: nat :| i < |few| && Lists(few[i], s);
      var j: nat :| j < |many| && Lists(many[j], s);
    }
    if Verdict(m, allowlist, d).Some? { MoreKeysStayBlocked(m, m', allowlist, d); }
  }
}
