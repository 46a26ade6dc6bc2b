/** Role keys of a captured template: short, colon-free and distinct. A string stands for its bytes here. */
module SafeKey {

  import opened Text
  import opened Graph

  const MAX_KEY := 30

  /** Every colon becomes an underscore. */
  function Replaced(code: string): (k: string)
    ensures |k| == |code| && ':' !in k
    ensures forall i :: 0 <= i < |code| ==> k[i] == if code[i] == ':' then '_' else code[i]
  {
    seq(|code|, i requires 0 <= i < |code| => if code[i] == ':' then '_' else code[i])
  }

  function Base(code: string): (k: string)
    ensures k != "" && ':' !in k && |k| <= MAX_KEY
    ensures code == "" ==> k == "role"
    ensures code != "" ==> |k| == if |code| < 30 then |code| else 30
    ensures code != "" ==> forall i :: 0 <= i < |k| ==> k[i] == if code[i] == ':' then '_' else code[i]
  {
    var k := if code == "" then "role" else Replaced(code);
    if |k| > MAX_KEY then k[..MAX_KEY] else k
  }

  /** The candidates: the base itself, then the base with a growing number. */
  function Candidate(code: string, n: nat): string {
    if n < 2 then Base(code) else Base(code) + "_" + Itoa(n)
  }

  lemma CandidateShape(code: string, n: nat)
    ensures Candidate(code, n) != "" && ':' !in Candidate(code, n)
    ensures n < 2 ==> |Candidate(code, n)| <= MAX_KEY
    ensures n >= 2 ==> |Candidate(code, n)| <= MAX_KEY + 1 + |Itoa(n)|
  {
  }

  lemma CandidatesDiffer(code: string, m: nat, n: nat)
    requires 1 <= m < n
    ensures Candidate(code, m) != Candidate(code, n)
  {
    if m >= 2 && Candidate(code, m) == Candidate(code, n) {
      var prefix := Base(code) + "_";
      assert Itoa(m) == Candidate(code, m)[|prefix|..] == Candidate(code, n)[|prefix|..] == Itoa(n);
      ItoaInjective(m, n);
    }
  }

  function Tried(code: string, n: nat): (s: set<string>)
    ensures forall i :: 1 <= i < n ==> Candidate(code, i) in s
    ensures forall x :: x in s ==> exists i :: 1 <= i < n && x == Candidate(code, i)
  {
    if n <= 1 then {} else Tried(code, n - 1) + {Candidate(code, n - 1)}
  }

  lemma {:induction false} TriedCount(code: string, n: nat)
    requires n >= 1
    ensures |Tried(code, n)| == n - 1
  {
    if n > 1 {
      TriedCount(code, n - 1);
      if Candidate(code, n - 1) in Tried(code, n - 1) {
        var i :| 1 <= i < n - 1 && Candidate(code, n - 1) == Candidate(code, i);
        CandidatesDiffer(code, i, n - 1);
      }
    }
  }

  /** Pigeonhole: the candidates run out of taken keys after as many steps as there are taken keys. */
  lemma TriedBounded(code: string, n: nat, seen: set<string>)
    requires n >= 1 && forall i :: 1 <= i < n ==> Candidate(code, i) in seen
    ensures n - 1 <= |seen|
  {
    TriedCount(code, n);
    SubsetCount(Tried(code, n), seen);
  }

  /** The first candidate that is not taken; it is then taken. */
  method Derive(code: string, seen: set<string>) returns (k: string, taken: set<string>, n: nat)
    ensures taken == seen + {k} && k !in seen
    ensures code != "" && ':' !in code && |code| <= 30 && code !in seen ==> k == code
    ensures 1 <= n <= |seen| + 1 && k == Candidate(code, n) && forall i :: 1 <= i < n ==> Candidate(code, i) in seen
  {
    k, n := Base(code), 1;
    TriedBounded(code, 1, seen);
    while k in seen
      invariant 1 <= n <= |seen| + 1 && k == Candidate(code, n)
      invariant forall i :: 1 <= i < n ==> Candidate(code, i) in seen
      decreases |seen| + 1 - n
    {
      n := n + 1;
      k := Base(code) + "_" + Itoa(n);
      TriedBounded(code, n, seen);
    }
    taken := seen + {k};
    assert code != "" && ':' !in code && |code| <= 30 ==> Base(code) == code;
  }

  /** The key with number `n`: its shape, and its length while the number has at most six digits. */
  lemma KeyFits(code: string, n: nat)
    ensures Candidate(code, n) != "" && ':' !in Candidate(code, n)
    ensures n <= 999_999 ==> |Candidate(code, n)| <= 37
  {
    hide Candidate;
    CandidateShape(code, n);
    if n <= 999_999 {
      PowersOfTen();
      ItoaLength(n, 6);
    }
  }

  /** Keys for a list of role codes that share one set of taken keys. */
  method DeriveAll(codes: seq<string>) returns (keys: seq<string>)
    ensures |keys| == |codes|
    ensures forall i, j :: 0 <= i < j < |keys| ==> keys[i] != keys[j]
    ensures forall i :: 0 <= i < |keys| ==> keys[i] != "" && ':' !in keys[i]
    ensures forall i :: 0 <= i < |keys| && i < 999_999 ==> |keys[i]| <= 37
  {
    hide Candidate;
    var seen: set<string> := {};
    keys := [];
    for i := 0 to |codes|
      invariant |keys| == i && |seen| == i && forall k :: k in keys <==> k in seen
      invariant forall a, b :: 0 <= a < b < i ==> keys[a] != keys[b]
      invariant forall a :: 0 <= a < i ==> keys[a] != "" && ':' !in keys[a]
      invariant forall a :: 0 <= a < i && a < 999_999 ==> |keys[a]| <= 37
    {
      ghost var before := keys;
      var k, n;
      k, seen, n := Derive(codes[i], seen);
      KeyFits(codes[i], n);
      keys := keys + [k];
      assert forall a :: 0 <= a < i ==> keys[a] == before[a];
    }
  }

  lemma PowersOfTen()
    ensures Pow10(1) == 10 && Pow10(2) == 100 && Pow10(3) == 1000 && Pow10(4) == 10_000 && Pow10(5) == 100_000 && Pow10(6) == 1_000_000
  {
    assert Pow10(0) == 1;
  }

  // ---------------------------------------------------------------- the role code of an applied template

  const INT64_MAX := 0x7fff_ffff_ffff_ffff

  function TemplateCode(id: nat, key: string): string {
    "tpl:tt-" + Itoa(id) + ":" + key
  }

  /** The code determines template and key, whatever the key: the first colon after the prefix ends the number. */
  lemma TemplateCodeInjective(id: nat, key: string, id': nat, key': string)
    requires TemplateCode(id, key) == TemplateCode(id', key')
    ensures id == id' && key == key'
  {
    var a, b := Itoa(id) + ":" + key, Itoa(id') + ":" + key';
    assert a == TemplateCode(id, key)[7..] == TemplateCode(id', key')[7..] == b;
    assert a[|Itoa(id)|] == ':' && b[|Itoa(id')|] == ':';
    assert forall i :: 0 <= i < |Itoa(id)| ==> a[i] == Itoa(id)[i] && IsDigit(a[i]);
    assert forall i :: 0 <= i < |Itoa(id')| ==> b[i] == Itoa(id')[i] && IsDigit(b[i]);
    assert |Itoa(id)| == |Itoa(id')|;
    assert Itoa(id) == a[..|Itoa(id)|] == b[..|Itoa(id')|] == Itoa(id');
    assert key == a[|Itoa(id)| + 1..] == b[|Itoa(id')| + 1..] == key';
    ItoaInjective(id, id');
  }

  lemma {:induction false} Pow10Add(a: nat, b: nat)
    ensures Pow10(a + b) == Pow10(a) * Pow10(b)
  {
    if a > 0 {
      Pow10Add(a - 1, b);
    }
  }

  lemma Int64Digits(id: nat)
    requires id <= INT64_MAX
    ensures |Itoa(id)| <= 19
  {
    PowersOfTen();
    Pow10Add(6, 6);
    Pow10Add(12, 6);
    Pow10Add(18, 1);
    ItoaLength(id, 19);
  }

  /** A key of at most 37 bytes, as derived for the first 999999 roles, fits the 64-byte column for every template id. */
  lemma CodeFits(id: nat, key: string)
    requires id <= INT64_MAX && |key| <= 37
    ensures |TemplateCode(id, key)| <= 64
  {
    Int64Digits(id);
  }

  lemma {:induction false} ItoaLong(n: nat, k: nat)
    requires n >= Pow10(k)
    ensures |Itoa(n)| > k
  {
    if k > 0 {
      assert Pow10(k) == 10 * Pow10(k - 1);
      ItoaLong(n / 10, k - 1);
    }
  }

  /** The bound is sharp: the largest template id leaves no room for one more byte. */
  lemma CodeOverflows(key: string)
    requires |key| == 38
    ensures |TemplateCode(INT64_MAX, key)| > 64
  {
    PowersOfTen();
    Pow10Add(6, 6);
    Pow10Add(12, 6);
    ItoaLong(INT64_MAX, 18);
  }
}
