/** Model families and quantizations, read off model names. */
module ModelFamily {
  import opened Common

  const FAMILIES: seq<string> := [
    "llama3.2", "llama3.1", "llama3", "llama2",
    "qwen2.5", "qwen2", "qwen1.5", "qwen",
    "gemma2", "gemma",
    "mistral", "mixtral",
    "phi3", "phi2",
    "codellama", "codeqwen"]

  const QUANTIZATIONS: seq<string> := ["q4_k_m", "q4_0", "q5_k_m", "q5_0", "q8_0", "fp16", "fp8", "bf16"]

  /** First listed family from `i` on that is a prefix of the name, or the number of families. */
  function FirstFamily(name: string, i: nat): (r: nat)
    requires i <= |FAMILIES|
    ensures i <= r <= |FAMILIES|
    ensures forall k | i <= k < r :: !(FAMILIES[k] <= name)
    ensures r < |FAMILIES| ==> FAMILIES[r] <= name
    decreases |FAMILIES| - i
  {
    if i == |FAMILIES| || FAMILIES[i] <= name then i else FirstFamily(name, i + 1)
  }

  /** Index of the first ':' or '-', or the length. */
  function Cut(name: string): (r: nat)
    ensures r <= |name|
    ensures forall k | 0 <= k < r :: name[k] != ':' && name[k] != '-'
    ensures r < |name| ==> name[r] == ':' || name[r] == '-'
  {
    if name == "" || name[0] == ':' || name[0] == '-' then 0 else 1 + Cut(name[1..])
  }

  function Family(name: string): string {
    var f := FirstFamily(name, 0);
    if f < |FAMILIES| then FAMILIES[f] else name[..Cut(name)]
  }

  method ExtractModelFamily(name: string) returns (family: string)
    ensures family == Family(name)
  {
    hide FAMILIES;
    for i := 0 to |FAMILIES|
      invariant forall k | 0 <= k < i :: !(FAMILIES[k] <= name)
    {
      var f := FAMILIES[i];
      if |name| >= |f| && name[..|f|] == f {
        FirstFamilyIs(name, i);
        assert Family(name) == f;
        return f;
      }
    }
    assert FirstFamily(name, 0) == |FAMILIES|;
    for i := 0 to |name|
      invariant forall k | 0 <= k < i :: name[k] != ':' && name[k] != '-'
    {
      if name[i] == ':' || name[i] == '-' {
        assert i == Cut(name);
        return name[..i];
      }
    }
    return name;
  }

  method Contains(s: string, substr: string) returns (found: bool)
    ensures found <==> exists i: nat :: Occurs(s, substr, i)
  {
    var i := 0;
    while i <= |s| - |substr|
      invariant 0 <= i
      invariant forall k: nat | k < i :: !Occurs(s, substr, k)
      decreases |s| - i
    {
      OccursIsSlice(s, substr, i);
      if s[i..i + |substr|] == substr {
        return true;
      }
      i := i + 1;
    }
    return false;
  }

  ghost predicate Mentions(name: string, pattern: string) {
    exists i: nat :: Occurs(name, pattern, i)
  }

  /** The first listed pattern that occurs in the name, "" when none does. */
  ghost predicate IsQuantization(name: string, q: string) {
    if q == "" then forall k | 0 <= k < |QUANTIZATIONS| :: !Mentions(name, QUANTIZATIONS[k])
    else exists k :: 0 <= k < |QUANTIZATIONS| && q == QUANTIZATIONS[k] && Mentions(name, q)
           && forall m | 0 <= m < k :: !Mentions(name, QUANTIZATIONS[m])
  }

  method ExtractQuantization(name: string) returns (quantization: string)
    ensures IsQuantization(name, quantization)
  {
    for k := 0 to |QUANTIZATIONS|
      invariant forall m | 0 <= m < k :: !Mentions(name, QUANTIZATIONS[m])
    {
      var found := Contains(name, QUANTIZATIONS[k]);
      if found {
        return QUANTIZATIONS[k];
      }
    }
    return "";
  }

  // ---------------------------------------------------------------- families

  lemma FirstFamilyIs(name: string, i: nat)
    requires i < |FAMILIES| && FAMILIES[i] <= name && forall k | 0 <= k < i :: !(FAMILIES[k] <= name)
    ensures FirstFamily(name, 0) == i
  {
  }

  /** The listed families are ordered so that no earlier one is a prefix of a later one. */
  lemma LongerFirst(i: nat, k: nat)
    requires i < k < |FAMILIES|
    ensures !(FAMILIES[i] <= FAMILIES[k])
  {
    var a, b := FAMILIES[i], FAMILIES[k];
    if |a| <= |b| {
      var j := if a[0] != b[0] then 0 else if a[2] != b[2] then 2 else if a[3] != b[3] then 3
               else if a[4] != b[4] then 4 else if a[5] != b[5] then 5 else 7;
      DifferAt(a, b, j);
    }
  }

  lemma DifferAt(a: string, b: string, j: nat)
    requires j < |a| <= |b| && a[j] != b[j]
    ensures !(a <= b)
  {
  }

  lemma PrefixesNest(a: string, b: string, name: string)
    requires a <= name && b <= name && |a| <= |b|
    ensures a <= b
  {
  }

  /** The family of a name with a listed prefix is the longest listed prefix. */
  lemma LongestPrefix(name: string, k: nat)
    requires k < |FAMILIES| && FAMILIES[k] <= name
    ensures Family(name) in FAMILIES && Family(name) <= name && |FAMILIES[k]| <= |Family(name)|
  {
    hide FAMILIES;
    var r := FirstFamily(name, 0);
    assert Family(name) == FAMILIES[r] && r <= k;
    if r < k && |FAMILIES[r]| < |FAMILIES[k]| {
      PrefixesNest(FAMILIES[r], FAMILIES[k], name);
      LongerFirst(r, k);
    }
  }

  /** A name that begins like one of these has a listed family, that one or a longer one. */
  lemma ListedPrefix(f: string, name: string)
    requires f in {"llama3.2", "llama3.1", "llama3", "llama2", "qwen2.5", "qwen2", "qwen1.5", "qwen",
                   "gemma2", "gemma", "mistral", "mixtral", "phi3", "phi2", "codellama", "codeqwen"}
    requires f <= name
    ensures Family(name) in FAMILIES && Family(name) <= name && f <= Family(name)
  {
    assert f in FAMILIES;
    hide FAMILIES;
    var k :| 0 <= k < |FAMILIES| && FAMILIES[k] == f;
    LongestPrefix(name, k);
    PrefixesNest(f, Family(name), name);
  }

  /** A name in which one of these occurs has a quantization. */
  lemma ListedQuantization(p: string, name: string, q: string)
    requires p in {"q4_k_m", "q4_0", "q5_k_m", "q5_0", "q8_0", "fp16", "fp8", "bf16"}
    requires Mentions(name, p) && IsQuantization(name, q)
    ensures q != "" && q in QUANTIZATIONS && Mentions(name, q)
  {
    assert p in QUANTIZATIONS;
    assert "" !in QUANTIZATIONS;
    hide QUANTIZATIONS, Mentions;
  }

  /** The family of any other name is what stands before its first ':' or '-'. */
  lemma FallbackFamily(name: string)
    requires forall k | 0 <= k < |FAMILIES| :: !(FAMILIES[k] <= name)
    ensures Family(name) <= name && ':' !in Family(name) && '-' !in Family(name)
    ensures Family(name) == name || name[|Family(name)|] == ':' || name[|Family(name)|] == '-'
  {
  }

  lemma ListedFamily(r: nat)
    requires r < |FAMILIES|
    ensures Family(FAMILIES[r]) == FAMILIES[r]
  {
    forall i | 0 <= i < r ensures !(FAMILIES[i] <= FAMILIES[r]) {
      LongerFirst(i, r);
    }
    FirstFamilyIs(FAMILIES[r], r);
  }

  lemma CutNone(name: string)
    requires forall k | 0 <= k < |name| :: name[k] != ':' && name[k] != '-'
    ensures Cut(name) == |name|
  {
  }

  lemma NoFamily(name: string)
    requires forall k | 0 <= k < |FAMILIES| :: !(FAMILIES[k] <= name)
    ensures FirstFamily(name, 0) == |FAMILIES|
  {
  }

  /** Taking the family again changes nothing. */
  lemma FamilyIdempotent(name: string)
    ensures Family(Family(name)) == Family(name)
  {
    var r := FirstFamily(name, 0);
    if r < |FAMILIES| {
      ListedFamily(r);
    } else {
      var f := name[..Cut(name)];
      forall k | 0 <= k < |FAMILIES| ensures !(FAMILIES[k] <= f) {
        assert f <= name;
      }
      NoFamily(f);
      CutNone(f);
    }
  }

  /** The code's own example says "llama3"; the code says "llama3.1". */
  lemma CommentedExample()
    ensures Family("llama3.1:8b-instruct-q4_k_m") == "llama3.1"
  {
    var name := "llama3.1:8b-instruct-q4_k_m";
    assert name[7] != FAMILIES[0][7];
    DifferAt(FAMILIES[0], name, 7);
    assert name[..8] == FAMILIES[1];
    FirstFamilyIs(name, 1);
  }
}
