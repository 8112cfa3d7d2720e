/**
 * The IMAP search string of the scheduled fetch (`_build_search_criteria`) and the
 * argument list it becomes once split on whitespace, as `imap.search` receives it.
 * The keys are the SEARCH keys UNSEEN, FROM, SUBJECT and TEXT of section 6.4.4 of
 * RFC 3501.
 */
module ImapSearch {
  import opened Wrappers
  import opened Text

  /** The optional `dynamic_filters` mapping: the values under "sender", "subject" and "keyword". */
  datatype DynamicFilters = DynamicFilters(sender: Option<string>, subject: Option<string>, keyword: Option<string>)

  function Quoted(s: string): string {
    "\"" + s + "\""
  }

  /** `" ".join(parts)`. */
  function Join(parts: seq<string>): string
    decreases |parts|
  {
    if parts == [] then ""
    else if |parts| == 1 then parts[0]
    else parts[0] + " " + Join(parts[1..])
  }

  /** The keys with a truthy value, each with its value: FROM, SUBJECT, TEXT, in this order. */
  function SearchKeys(d: DynamicFilters): (r: seq<(string, string)>)
    ensures |r| <= 3
  {
    (if Truthy(d.sender) then [("FROM", d.sender.value)] else [])
    + (if Truthy(d.subject) then [("SUBJECT", d.subject.value)] else [])
    + (if Truthy(d.keyword) then [("TEXT", d.keyword.value)] else [])
  }

  /** `KEY "value"` for each key. */
  function KeyParts(keys: seq<(string, string)>): (r: seq<string>)
    ensures |r| == |keys|
  {
    seq(|keys|, k requires 0 <= k < |keys| => keys[k].0 + " " + Quoted(keys[k].1))
  }

  /** The list `criteria_parts`: "UNSEEN", then a key for each truthy value. */
  function CriteriaParts(dynamic: Option<DynamicFilters>): (r: seq<string>)
    ensures 1 <= |r| <= 4 && r[0] == "UNSEEN"
  {
    if dynamic.None? then ["UNSEEN"] else ["UNSEEN"] + KeyParts(SearchKeys(dynamic.value))
  }

  /** The clause a key adds to the search string: ` KEY "value"` when the value is truthy, nothing otherwise. */
  function Clause(key: string, value: Option<string>): string {
    if Truthy(value) then " " + key + " " + Quoted(value.value) else ""
  }

  /**
   * `_build_search_criteria`.  `dynamic` is `None` for an absent or empty mapping
   * (both are falsy, and a mapping without the three keys contributes nothing).
   */
  function BuildSearchCriteria(dynamic: Option<DynamicFilters>): (r: string)
    ensures StartsWith(r, "UNSEEN")
    ensures dynamic.None? ==> r == "UNSEEN"
    ensures dynamic.Some? ==>
              r == "UNSEEN" + Clause("FROM", dynamic.value.sender) + Clause("SUBJECT", dynamic.value.subject)
                   + Clause("TEXT", dynamic.value.keyword)
    ensures (dynamic.Some? && !Truthy(dynamic.value.sender) && !Truthy(dynamic.value.subject)
             && !Truthy(dynamic.value.keyword)) ==> r == "UNSEEN"
  {
    var parts := CriteriaParts(dynamic);
    JoinStartsWithFirst(parts);
    if dynamic.None? then Join(parts)
    else
      SearchStringClauses(dynamic.value);
      Join(parts)
  }

  lemma JoinStartsWithFirst(parts: seq<string>)
    requires parts != []
    ensures StartsWith(Join(parts), parts[0])
  {
    if |parts| > 1 {
      assert Join(parts)[..|parts[0]|] == parts[0];
    }
  }

  /** Each part with a space before it, concatenated. */
  function Spaced(parts: seq<string>): string
    decreases |parts|
  {
    if parts == [] then "" else " " + parts[0] + Spaced(parts[1..])
  }

  /** Joining with spaces is the first part followed by every other part with a space before it. */
  lemma {:induction false} JoinIsSpaced(parts: seq<string>)
    requires parts != []
    ensures Join(parts) == parts[0] + Spaced(parts[1..])
    decreases |parts|
  {
    if |parts| > 1 {
      JoinIsSpaced(parts[1..]);
      assert parts[1..][1..] == parts[2..];
    }
  }

  lemma {:induction false} SpacedAppend(a: seq<string>, b: seq<string>)
    ensures Spaced(a + b) == Spaced(a) + Spaced(b)
    decreases |a|
  {
    if a == [] {
      assert a + b == b;
    } else {
      assert (a + b)[1..] == a[1..] + b;
      SpacedAppend(a[1..], b);
    }
  }

  lemma KeyPartsAppend(x: seq<(string, string)>, y: seq<(string, string)>)
    ensures KeyParts(x + y) == KeyParts(x) + KeyParts(y)
  {
    assert |KeyParts(x + y)| == |KeyParts(x) + KeyParts(y)|;
    forall k | 0 <= k < |x + y| ensures KeyParts(x + y)[k] == (KeyParts(x) + KeyParts(y))[k] {
      if k >= |x| {
        assert (x + y)[k] == y[k - |x|];
      }
    }
  }

  /** The key parts of one key or none: its clause. */
  lemma SpacedKeyParts(key: string, value: Option<string>)
    ensures Spaced(KeyParts(if Truthy(value) then [(key, value.value)] else [])) == Clause(key, value)
  {
  }

  /** The key parts of a mapping, each with a space before it: its FROM, SUBJECT and TEXT clauses. */
  lemma SpacedSearchKeys(d: DynamicFilters)
    ensures Spaced(KeyParts(SearchKeys(d))) == Clause("FROM", d.sender) + Clause("SUBJECT", d.subject) + Clause("TEXT", d.keyword)
  {
    var a := if Truthy(d.sender) then [("FROM", d.sender.value)] else [];
    var b := if Truthy(d.subject) then [("SUBJECT", d.subject.value)] else [];
    var c := if Truthy(d.keyword) then [("TEXT", d.keyword.value)] else [];
    var ka, kb, kc := KeyParts(a), KeyParts(b), KeyParts(c);
    KeyPartsAppend(a + b, c);
    KeyPartsAppend(a, b);
    assert KeyParts(SearchKeys(d)) == ka + kb + kc;
    SpacedAppend(ka + kb, kc);
    SpacedAppend(ka, kb);
    SpacedKeyParts("FROM", d.sender);
    SpacedKeyParts("SUBJECT", d.subject);
    SpacedKeyParts("TEXT", d.keyword);
  }

  /** The search string of a mapping: UNSEEN, then the FROM, SUBJECT and TEXT clauses, in this order. */
  lemma SearchStringClauses(d: DynamicFilters)
    ensures Join(CriteriaParts(Some(d))) == "UNSEEN" + Clause("FROM", d.sender) + Clause("SUBJECT", d.subject) + Clause("TEXT", d.keyword)
  {
    var keys := KeyParts(SearchKeys(d));
    assert Join(CriteriaParts(Some(d))) == "UNSEEN" + Spaced(keys) by {
      var parts := ["UNSEEN"] + keys;
      assert CriteriaParts(Some(d)) == parts;
      JoinIsSpaced(parts);
      assert parts[1..] == keys;
    }
    SpacedSearchKeys(d);
  }

  // ---------------- str.split() ----------------

  /** The characters Python's `str.split()` treats as whitespace. */
  predicate IsSpace(c: char) {
    || c == ' ' || 9 <= c as int <= 13 || 28 <= c as int <= 31 || c as int == 0x85 || c as int == 0xA0
    || c as int == 0x1680 || 0x2000 <= c as int <= 0x200A || c as int == 0x2028 || c as int == 0x2029
    || c as int == 0x202F || c as int == 0x205F || c as int == 0x3000
  }

  predicate NoSpace(s: string) {
    forall i :: 0 <= i < |s| ==> !IsSpace(s[i])
  }

  /** The longest prefix of `s` without whitespace. */
  function WordPrefix(s: string): (r: string)
    ensures |r| <= |s| && r == s[..|r|] && NoSpace(r)
    ensures |r| < |s| ==> IsSpace(s[|r|])
    ensures s != [] && !IsSpace(s[0]) ==> |r| >= 1
  {
    if s == [] || IsSpace(s[0]) then [] else [s[0]] + WordPrefix(s[1..])
  }

  /** `s.split()`: the maximal runs of non-whitespace characters, in order. */
  function Words(s: string): (r: seq<string>)
    decreases |s|
  {
    if s == [] then []
    else if IsSpace(s[0]) then Words(s[1..])
    else
      var w := WordPrefix(s);
      [w] + Words(s[|w|..])
  }

  lemma {:induction false} WordPrefixAll(s: string)
    requires NoSpace(s)
    ensures WordPrefix(s) == s
    decreases |s|
  {
    if s != [] {
      WordPrefixAll(s[1..]);
    }
  }

  /** A run of non-whitespace is one word. */
  lemma WordsOfWord(w: string)
    requires w != [] && NoSpace(w)
    ensures Words(w) == [w]
  {
    WordPrefixAll(w);
    assert w[|w|..] == [];
  }

  /** Splitting at a space: `(x + " " + y).split() == x.split() + y.split()`. */
  lemma {:induction false} WordsAtSpace(x: string, y: string)
    ensures Words(x + " " + y) == Words(x) + Words(y)
    decreases |x|
  {
    var s := x + " " + y;
    if x == [] {
      assert s[1..] == y;
    } else if IsSpace(x[0]) {
      assert s[1..] == x[1..] + " " + y;
      WordsAtSpace(x[1..], y);
    } else {
      var w := WordPrefix(x);
      WordPrefixCut(x, y);
      assert WordPrefix(s) == w;
      assert s[|w|..] == x[|w|..] + " " + y;
      WordsAtSpace(x[|w|..], y);
    }
  }

  /** The first word of `x + " " + y` ends where the first word of `x` ends. */
  lemma {:induction false} WordPrefixCut(x: string, y: string)
    ensures WordPrefix(x + " " + y) == WordPrefix(x)
    decreases |x|
  {
    var s := x + " " + y;
    if x != [] && !IsSpace(x[0]) {
      assert s[1..] == x[1..] + " " + y;
      WordPrefixCut(x[1..], y);
    }
  }

  /**
   * The arguments `imap.search` receives: "UNSEEN", then each truthy key and its
   * quoted value as two arguments, provided the values hold no whitespace (a value
   * with whitespace is split further).
   */
  lemma SearchArguments(d: DynamicFilters)
    requires Truthy(d.sender) ==> NoSpace(d.sender.value)
    requires Truthy(d.subject) ==> NoSpace(d.subject.value)
    requires Truthy(d.keyword) ==> NoSpace(d.keyword.value)
    ensures Words(BuildSearchCriteria(Some(d)))
            == ["UNSEEN"]
               + (if Truthy(d.sender) then ["FROM", Quoted(d.sender.value)] else [])
               + (if Truthy(d.subject) then ["SUBJECT", Quoted(d.subject.value)] else [])
               + (if Truthy(d.keyword) then ["TEXT", Quoted(d.keyword.value)] else [])
  {
    var s1 := if Truthy(d.sender) then [("FROM", d.sender.value)] else [];
    var s2 := if Truthy(d.subject) then [("SUBJECT", d.subject.value)] else [];
    var s3 := if Truthy(d.keyword) then [("TEXT", d.keyword.value)] else [];
    var w1 := if Truthy(d.sender) then ["FROM", Quoted(d.sender.value)] else [];
    var w2 := if Truthy(d.subject) then ["SUBJECT", Quoted(d.subject.value)] else [];
    var w3 := if Truthy(d.keyword) then ["TEXT", Quoted(d.keyword.value)] else [];
    var keys := SearchKeys(d);
    assert keys == s1 + s2 + s3;
    assert BuildSearchCriteria(Some(d)) == Join(["UNSEEN"] + KeyParts(keys));
    KeyNamesHaveNoSpace();
    assert KeysWithoutSpace(keys);
    WordsOfKeys(keys);
    KeyWordsConcat(s1, s2);
    KeyWordsConcat(s1 + s2, s3);
    assert KeyWords(s1) == w1 && KeyWords(s2) == w2 && KeyWords(s3) == w3;
    assert KeyWords(keys) == w1 + w2 + w3;
    ConcatAssoc(["UNSEEN"], w1, w2, w3);
  }

  lemma ConcatAssoc<T>(a: seq<T>, b: seq<T>, c: seq<T>, d: seq<T>)
    ensures a + (b + c + d) == a + b + c + d
  {
  }

  lemma KeyNamesHaveNoSpace()
    ensures NoSpace("FROM") && NoSpace("SUBJECT") && NoSpace("TEXT") && NoSpace("UNSEEN")
  {
  }

  /** The words of the keys: each key, then its quoted value. */
  function KeyWords(keys: seq<(string, string)>): seq<string>
    decreases |keys|
  {
    if keys == [] then [] else [keys[0].0, Quoted(keys[0].1)] + KeyWords(keys[1..])
  }

  lemma {:induction false} KeyWordsConcat(a: seq<(string, string)>, b: seq<(string, string)>)
    ensures KeyWords(a + b) == KeyWords(a) + KeyWords(b)
    decreases |a|
  {
    if a == [] {
      assert a + b == b;
    } else {
      assert (a + b)[1..] == a[1..] + b;
      KeyWordsConcat(a[1..], b);
    }
  }

  lemma QuotedNoSpace(value: string)
    requires NoSpace(value)
    ensures NoSpace(Quoted(value))
  {
    assert forall i :: 0 < i < |Quoted(value)| - 1 ==> Quoted(value)[i] == value[i - 1];
  }

  /** `KEY "value"` splits into the key and the quoted value. */
  lemma WordsOfKeyPart(key: string, value: string)
    requires key != "" && NoSpace(key) && NoSpace(value)
    ensures Words(key + " " + Quoted(value)) == [key, Quoted(value)]
  {
    WordsAtSpace(key, Quoted(value));
    WordsOfWord(key);
    QuotedNoSpace(value);
    WordsOfWord(Quoted(value));
  }

  /** Every key is a non-empty word and every value has no whitespace. */
  predicate KeysWithoutSpace(keys: seq<(string, string)>) {
    forall k :: 0 <= k < |keys| ==> keys[k].0 != "" && NoSpace(keys[k].0) && NoSpace(keys[k].1)
  }

  lemma WordsOfKeys(keys: seq<(string, string)>)
    requires KeysWithoutSpace(keys)
    ensures Words(Join(["UNSEEN"] + KeyParts(keys))) == ["UNSEEN"] + KeyWords(keys)
  {
    KeyNamesHaveNoSpace();
    WordsOfWord("UNSEEN");
    var parts := ["UNSEEN"] + KeyParts(keys);
    if keys == [] {
      assert parts == ["UNSEEN"];
    } else {
      assert parts[1..] == KeyParts(keys);
      WordsAtSpace("UNSEEN", Join(KeyParts(keys)));
      WordsOfKeyParts(keys);
    }
  }

  lemma {:induction false} WordsOfKeyParts(keys: seq<(string, string)>)
    requires KeysWithoutSpace(keys)
    ensures Words(Join(KeyParts(keys))) == KeyWords(keys)
    decreases |keys|
  {
    if keys != [] {
      var head := keys[0].0 + " " + Quoted(keys[0].1);
      var rest := KeyParts(keys)[1..];
      assert KeyParts(keys)[0] == head;
      assert rest == KeyParts(keys[1..]);
      WordsOfKeyPart(keys[0].0, keys[0].1);
      if |keys| == 1 {
        assert keys[1..] == [];
      } else {
        assert Join(KeyParts(keys)) == head + " " + Join(rest);
        WordsAtSpace(head, Join(rest));
        WordsOfKeyParts(keys[1..]);
      }
    }
  }
}
