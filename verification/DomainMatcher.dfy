/** The blocklist matcher: a scan over the suffixes of a name, against a label specification. */
module DomainMatcher {
  import opened Prelude

  /** `part.find('.')` */
  function FindDot(s: string): (r: Option<nat>)
    ensures r.Some? ==> r.value < |s| && s[r.value] == '.' && '.' !in s[..r.value]
    ensures r.None? ==> '.' !in s
  {
    if s == "" then None
    else if s[0] == '.' then Some(0)
    else
      match FindDot(s[1..])
      case None => None
      case Some(i) => assert s[..i + 1] == [s[0]] + s[1..][..i]; Some(i + 1)
  }

  // ----- declarative specification -----------------------------------------

  /** s is d itself, or d ends with "." + s. */
  predicate LabelSuffix(s: string, d: string) {
    s == d || (|s| < |d| && d[|d| - |s| - 1] == '.' && d[|d| - |s|..] == s)
  }

  /** The keys that decide d: the listed label suffixes, where the empty key counts only for the empty name. */
  ghost predicate Hits(domains: map<string, u8>, d: string, s: string) {
    s in domains && LabelSuffix(s, d) && (s == "" ==> d == "")
  }

  ghost predicate LongestHit(domains: map<string, u8>, d: string, s: string) {
    Hits(domains, d, s) && forall t :: Hits(domains, d, t) ==> |t| <= |s|
  }

  // ----- the scan ------------------------------------------------------------

  /** What the scanning loop computes from a given suffix on. */
  function Scan(domains: map<string, u8>, part: string): Option<u8>
    decreases |part|
  {
    if part in domains then Some(domains[part])
    else
      match FindDot(part)
      case None => None
      case Some(i) => if part[i + 1..] == "" then None else Scan(domains, part[i + 1..])
  }

  function Verdict(domains: map<string, u8>, allowlist: set<string>, domain: string): Option<u8> {
    if domain in allowlist then None else Scan(domains, domain)
  }

  lemma SuffixStep(t: string, d: string)
    ensures match FindDot(d)
            case None => LabelSuffix(t, d) <==> t == d
            case Some(i) => LabelSuffix(t, d) <==> t == d || LabelSuffix(t, d[i + 1..])
  {
    match FindDot(d)
    case None =>
    case Some(i) =>
      var rest := d[i + 1..];
      forall k | 0 <= k < i ensures d[k] != '.' { assert d[..i][k] == d[k]; }
      if LabelSuffix(t, d) && t != d {
        var j := |d| - |t| - 1;
        if j > i {
          assert rest[|rest| - |t| - 1] == '.';
          assert rest[|rest| - |t|..] == d[|d| - |t|..];
        }
      }
      if LabelSuffix(t, rest) {
        assert rest[|rest| - |t|..] == d[|d| - |t|..];
      }
  }

  lemma SuffixesOfEqualLength(s: string, t: string, d: string)
    requires LabelSuffix(s, d) && LabelSuffix(t, d) && |s| == |t|
    ensures s == t
  {}

  /** The scan answers exactly when a key decides the name, and then with the longest one's id. */
  lemma {:induction false} ScanFindsLongest(domains: map<string, u8>, d: string)
    ensures Scan(domains, d).Some? <==> exists s :: Hits(domains, d, s)
    ensures forall s :: LongestHit(domains, d, s) ==> Scan(domains, d) == Some(domains[s])
    ensures Scan(domains, d).Some? ==> exists s :: LongestHit(domains, d, s)
    decreases |d|
  {
    if d in domains {
      assert Hits(domains, d, d);
      assert LongestHit(domains, d, d);
      forall s | LongestHit(domains, d, s) ensures s == d {
        SuffixesOfEqualLength(s, d, d);
      }
    } else {
      forall t ensures match FindDot(d)
                       case None => !Hits(domains, d, t)
                       case Some(i) => Hits(domains, d, t) <==> d[i + 1..] != "" && Hits(domains, d[i + 1..], t)
      {
        SuffixStep(t, d);
      }
      match FindDot(d)
      case None =>
      case Some(i) =>
        var rest := d[i + 1..];
        if rest != "" {
          ScanFindsLongest(domains, rest);
          forall s ensures LongestHit(domains, d, s) <==> LongestHit(domains, rest, s) {}
          if Scan(domains, rest).Some? {
            var s :| LongestHit(domains, rest, s);
            assert LongestHit(domains, d, s);
          }
        }
    }
  }

  /** A key that is no label suffix of a name plays no part in its verdict. */
  lemma {:induction false} OtherKeysAreIdle(domains: map<string, u8>, key: string, id: u8, d: string)
    requires !LabelSuffix(key, d)
    ensures Scan(domains[key := id], d) == Scan(domains, d)
    decreases |d|
  {
    SuffixStep(key, d);
    match FindDot(d)
    case None =>
    case Some(i) => OtherKeysAreIdle(domains, key, id, d[i + 1..]);
  }

  /** The plain reading "some listed key is a label suffix of the name". */
  ghost predicate PlainListed(domains: map<string, u8>, d: string) {
    exists s :: s in domains && LabelSuffix(s, d)
  }

  lemma {:induction false} KeysBounded(keys: set<string>) returns (n: nat)
    ensures forall s :: s in keys ==> |s| <= n
  {
    if keys == {} {
      n := 0;
    } else {
      var s :| s in keys;
      var m := KeysBounded(keys - {s});
      n := Max(m, |s|);
    }
  }

  /** The scan meets the plain reading on every name exactly when the empty string is not a key:
      an empty key would plainly match every name that ends in a dot, and the loop stops before
      looking an emptied suffix up. */
  lemma ScanIsPlainIffNoEmptyKey(domains: map<string, u8>)
    ensures (forall d :: Scan(domains, d).Some? <==> PlainListed(domains, d)) <==> "" !in domains
  {
    if "" !in domains {
      forall d ensures Scan(domains, d).Some? <==> PlainListed(domains, d) {
        ScanFindsLongest(domains, d);
        if s :| s in domains && LabelSuffix(s, d) { assert Hits(domains, d, s); }
      }
    } else {
      var n := KeysBounded(domains.Keys);
      var d := seq(n, i => 'a') + ".";
      assert LabelSuffix("", d);
      assert PlainListed(domains, d);
      ScanFindsLongest(domains, d);
      assert forall k :: 0 <= k < n ==> d[k] == 'a';
      assert forall s :: LabelSuffix(s, d) && s != "" ==> |s| > n;
      assert forall s :: !Hits(domains, d, s);
      assert !(Scan(domains, d).Some? <==> PlainListed(domains, d));
    }
  }

  // ----- laws of the verdict ---------------------------------------------------

  lemma SuffixTransitive(s: string, t: string, d: string)
    requires LabelSuffix(s, t) && LabelSuffix(t, d)
    ensures LabelSuffix(s, d)
  {
    if s != t && t != d {
      assert t == d[|d| - |t|..];
      assert t[|t| - |s| - 1] == d[|d| - |s| - 1];
      assert t[|t| - |s|..] == d[|d| - |s|..];
    }
  }

  /** A subdomain of a blocked name is blocked, unless the subdomain itself is allowlisted, and it
      is attributed to a key at least as long. */
  lemma SubdomainStaysBlocked(domains: map<string, u8>, allowlist: set<string>, labels: string, d: string)
    requires d != "" && Verdict(domains, allowlist, d).Some?
    ensures Verdict(domains, allowlist, labels + "." + d).Some? <==> labels + "." + d !in allowlist
    ensures forall s, t :: LongestHit(domains, d, s) && LongestHit(domains, labels + "." + d, t) ==> |s| <= |t|
  {
    var sub := labels + "." + d;
    ScanFindsLongest(domains, d);
    ScanFindsLongest(domains, sub);
    assert sub[|sub| - |d|..] == d;
    assert LabelSuffix(d, sub);
    forall s | Hits(domains, d, s) ensures Hits(domains, sub, s) {
      SuffixTransitive(s, d, sub);
    }
  }

  /** More keys never unblock a name. */
  lemma MoreKeysStayBlocked(few: map<string, u8>, many: map<string, u8>, allowlist: set<string>, d: string)
    requires few.Keys <= many.Keys && Verdict(few, allowlist, d).Some?
    ensures Verdict(many, allowlist, d).Some?
  {
    ScanFindsLongest(few, d);
    ScanFindsLongest(many, d);
    var s :| Hits(few, d, s);
    assert Hits(many, d, s);
  }

  /** In-memory matcher over exact and suffix matches. */
  class HashedMatcher {
    const domains: map<string, u8>
    var allowlist: set<string>

    constructor (domains: map<string, u8>, allowlistVec: seq<string>)
      ensures this.domains == domains
      ensures forall d :: d in allowlist <==> d in allowlistVec
    {
      this.domains := domains;
      this.allowlist := {};
      new;
      for i := 0 to |allowlistVec|
        invariant forall d :: d in allowlist <==> d in allowlistVec[..i]
      {
        allowlist := allowlist + {allowlistVec[i]};
      }
    }

    method Check(domain: string) returns (r: Option<u8>)
      ensures r == Verdict(domains, allowlist, domain)
      ensures r.Some? <==> domain !in allowlist && exists s :: Hits(domains, domain, s)
      ensures r.Some? ==> exists s :: LongestHit(domains, domain, s) && r.value == domains[s]
    {
      ScanFindsLongest(domains, domain);
      if domain in allowlist {
        return None;
      }
      var part := domain;
      while true
        invariant Scan(domains, domain) == Scan(domains, part)
        decreases |part|
      {
        if part in domains {
          return Some(domains[part]);
        }
        match FindDot(part)
        case Some(idx) =>
          part := part[idx + 1..];
          if part == "" { break; }
        case None => break;
      }
      // `break` leaves with nothing found
      assert Scan(domains, domain) == None;
      r := None;
    }
  }
}
