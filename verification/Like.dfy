/** Substring search through LIKE (pkg/audit/postgres/store.go:469-483, 563-573). */
module Like {
  import opened Substrings

  const SEARCH_CAP := 200

  // ---------- PostgreSQL's LIKE with its default escape character ----------

  predicate LikeMatch(t: string, p: string)
    decreases |t| + |p|
  {
    if p == "" then t == ""
    else if p[0] == '%' then LikeMatch(t, p[1..]) || (t != "" && LikeMatch(t[1..], p))
    else if t == "" then false
    else if p[0] == '_' then LikeMatch(t[1..], p[1..])
    else if p[0] == '\\' then |p| > 1 && t[0] == p[1] && LikeMatch(t[1..], p[2..])
    else t[0] == p[0] && LikeMatch(t[1..], p[1..])
  }

  /** PostgreSQL rejects a pattern that ends in a lone escape character. */
  predicate NoDanglingEscape(p: string) {
    if p == "" then true
    else if p[0] == '\\' then |p| > 1 && NoDanglingEscape(p[2..])
    else NoDanglingEscape(p[1..])
  }

  function Fold(lower: char -> char, s: string): (r: string)
    ensures |r| == |s| && forall i | 0 <= i < |s| :: r[i] == lower(s[i])
  {
    seq(|s|, i requires 0 <= i < |s| => lower(s[i]))
  }

  /** ILIKE folds both sides. Folding never creates or removes a meta-character. */
  predicate ILike(lower: char -> char, t: string, p: string) {
    LikeMatch(Fold(lower, t), Fold(lower, p))
  }

  predicate Meta(c: char) {
    c == '\\' || c == '%' || c == '_'
  }

  ghost predicate KeepsMeta(lower: char -> char) {
    forall c :: (Meta(c) ==> lower(c) == c) && (Meta(lower(c)) ==> Meta(c))
  }

  // ---------- the source's escaping ----------

  function EscapeChar(c: char): string {
    if Meta(c) then ['\\', c] else [c]
  }

  function Escape(s: string): string {
    if s == "" then "" else EscapeChar(s[0]) + Escape(s[1..])
  }

  /** The bytes a character takes in UTF-8. */
  function Width(c: char): (n: nat)
    ensures 1 <= n <= 4
  {
    if c as int < 0x80 then 1 else if c as int < 0x800 then 2 else if c as int < 0x10000 then 3 else 4
  }

  function Bytes(s: string): nat {
    if s == "" then 0 else Bytes(s[..|s| - 1]) + Width(s[|s| - 1])
  }

  /** s[:n] on bytes keeps these characters whole. */
  function Prefix(s: string, n: nat): string {
    if Bytes(s) <= n then s else Prefix(s[..|s| - 1], n)
  }

  /** len(s) and s[:200] count bytes. */
  function Capped(s: string): string {
    Prefix(s, SEARCH_CAP)
  }

  /** The cut falls inside a character, which leaves bytes that are not UTF-8. */
  predicate Torn(s: string) {
    Bytes(s) > SEARCH_CAP && Bytes(Capped(s)) < SEARCH_CAP
  }

  function EscapeLike(s: string): string {
    Escape(Capped(s))
  }

  function SearchPattern(s: string): string {
    "%" + EscapeLike(s) + "%"
  }

  // ---------- what it means ----------

  lemma {:induction false} AnythingMatches(t: string)
    ensures LikeMatch(t, "%")
  {
    assert "%"[1..] == "";
    if t != "" {
      AnythingMatches(t[1..]);
    }
  }

  lemma {:induction false} EscapedPrefix(t: string, s: string)
    ensures LikeMatch(t, Escape(s) + "%") <==> s <= t
    decreases |s|
  {
    if s == "" {
      assert Escape(s) + "%" == "%";
      AnythingMatches(t);
    } else {
      var p, rest := Escape(s) + "%", Escape(s[1..]) + "%";
      if Meta(s[0]) {
        assert p == ['\\', s[0]] + rest;
        assert p[2..] == rest;
      } else {
        assert p == [s[0]] + rest;
        assert p[1..] == rest;
      }
      if t != "" {
        EscapedPrefix(t[1..], s[1..]);
        assert t == [t[0]] + t[1..] && s == [s[0]] + s[1..];
      }
    }
  }

  lemma ContainsCons(t: string, s: string)
    requires t != ""
    ensures Contains(t, s) <==> s <= t || Contains(t[1..], s)
  {
    if Contains(t, s) {
      var i :| 0 <= i <= |t| && s <= t[i..];
      if i > 0 {
        assert t[1..][i - 1..] == t[i..];
      }
    }
    if s <= t {
      assert t[0..] == t;
    }
    if Contains(t[1..], s) {
      var i :| 0 <= i <= |t[1..]| && s <= t[1..][i..];
      assert t[1..][i..] == t[i + 1..];
    }
  }

  lemma {:induction false} EscapedSubstring(t: string, s: string)
    ensures LikeMatch(t, "%" + Escape(s) + "%") <==> Contains(t, s)
    decreases |t|
  {
    var p := "%" + Escape(s) + "%";
    assert p[1..] == Escape(s) + "%";
    EscapedPrefix(t, s);
    if t == "" {
      assert s <= t <==> s <= t[0..];
    } else {
      EscapedSubstring(t[1..], s);
      ContainsCons(t, s);
    }
  }

  lemma {:induction false} FoldEscape(lower: char -> char, s: string)
    requires KeepsMeta(lower)
    ensures Fold(lower, Escape(s)) == Escape(Fold(lower, s))
  {
    if s != "" {
      FoldEscape(lower, s[1..]);
      assert Fold(lower, s)[1..] == Fold(lower, s[1..]);
      assert Fold(lower, EscapeChar(s[0]) + Escape(s[1..]))
          == Fold(lower, EscapeChar(s[0])) + Fold(lower, Escape(s[1..]));
      assert Fold(lower, EscapeChar(s[0])) == EscapeChar(lower(s[0]));
    }
  }

  // ---------- where the cap cuts ----------

  lemma {:induction false} PrefixIs(s: string, n: nat)
    ensures Prefix(s, n) <= s && Bytes(Prefix(s, n)) <= n
    ensures |Prefix(s, n)| < |s| ==> Bytes(s[..|Prefix(s, n)| + 1]) > n
    decreases |s|
  {
    if Bytes(s) > n {
      var front := s[..|s| - 1];
      PrefixIs(front, n);
      var k := |Prefix(front, n)|;
      if k < |front| {
        assert front[..k + 1] == s[..k + 1];
      } else {
        assert s[..k + 1] == s;
      }
    }
  }

  lemma {:induction false} BytesGrow(s: string, i: nat, j: nat)
    requires i < j <= |s|
    ensures Bytes(s[..i]) < Bytes(s[..j])
    decreases j
  {
    assert s[..j][..j - 1] == s[..j - 1];
    if i < j - 1 {
      BytesGrow(s, i, j - 1);
    }
  }

  predicate Ascii(s: string) {
    forall i | 0 <= i < |s| :: s[i] as int < 0x80
  }

  lemma {:induction false} AsciiBytes(s: string)
    requires Ascii(s)
    ensures Bytes(s) == |s|
  {
    if s != "" {
      AsciiBytes(s[..|s| - 1]);
    }
  }

  /** The encoded lengths of section 3 of RFC 3629. */
  lemma WidthIs(c: char)
    ensures Width(c) == 1 <==> 0 <= c as int <= 0x7f
    ensures Width(c) == 2 <==> 0x80 <= c as int <= 0x7ff
    ensures Width(c) == 3 <==> 0x800 <= c as int <= 0xffff
    ensures Width(c) == 4 <==> 0x1_0000 <= c as int <= 0x10_ffff
  {
  }

  /** What is searched for is the longest prefix of whole characters within 200 bytes. The cut is
      clean exactly when some prefix has 200 bytes, or the term does not exceed them, and on an
      ASCII term it keeps the first 200 characters. */
  lemma CapCutsBytes(s: string)
    ensures Capped(s) <= s
    ensures forall n | 0 <= n <= |s| :: Bytes(s[..n]) <= 200 <==> n <= |Capped(s)|
    ensures Torn(s) <==> Bytes(s) > 200 && forall n | 0 <= n <= |s| :: Bytes(s[..n]) != 200
    ensures Ascii(s) ==>
              !Torn(s) && Capped(s) == s[..if |s| > 200 then 200 else |s|]
  {
    PrefixIs(s, SEARCH_CAP);
    var k := |Capped(s)|;
    assert s[..k] == Capped(s);
    forall n | 0 <= n <= |s| ensures Bytes(s[..n]) <= SEARCH_CAP <==> n <= k {
      if n < k {
        BytesGrow(s, n, k);
      } else if n > k + 1 {
        BytesGrow(s, k + 1, n);
      }
    }
    forall n | 0 <= n <= |s| && Bytes(s[..n]) == SEARCH_CAP ensures n == k {
      if n < k {
        BytesGrow(s, n, k);
      }
    }
    if Ascii(s) {
      AsciiPrefixes(s);
    }
  }

  lemma AsciiPrefixes(s: string)
    requires Ascii(s)
    ensures forall n | 0 <= n <= |s| :: Bytes(s[..n]) == n
    ensures Bytes(s) == |s|
  {
    AsciiBytes(s);
    forall n | 0 <= n <= |s| ensures Bytes(s[..n]) == n {
      AsciiBytes(s[..n]);
    }
  }

  /** The description caps at 200 characters, but a term can be torn: 199 letters and an accented
      one, which takes two bytes. */
  lemma CapCanTear(s: string)
    requires |s| == 200 && Ascii(s[..199]) && s[199] == '\U{E9}'
    ensures Torn(s)
  {
    AsciiBytes(s[..199]);
    assert Capped(s) == Prefix(s[..199], SEARCH_CAP);
  }

  /** A search term matches a text exactly when the text contains the term as the cap
      leaves it, case folded on both sides; wildcards in the term are literal. */
  lemma SearchIsSubstring(lower: char -> char, t: string, s: string)
    requires KeepsMeta(lower)
    ensures ILike(lower, t, SearchPattern(s)) <==> Contains(Fold(lower, t), Fold(lower, Capped(s)))
  {
    FoldEscape(lower, Capped(s));
    assert Fold(lower, SearchPattern(s)) == "%" + Escape(Fold(lower, Capped(s))) + "%";
    EscapedSubstring(Fold(lower, t), Fold(lower, Capped(s)));
  }

  lemma {:induction false} EscapeHasNoDangling(s: string)
    ensures NoDanglingEscape(Escape(s) + "%")
  {
    if s == "" {
      assert "%"[1..] == "";
      assert Escape(s) + "%" == "%";
    } else {
      EscapeHasNoDangling(s[1..]);
      var rest := Escape(s[1..]) + "%";
      if Meta(s[0]) {
        assert Escape(s) + "%" == ['\\', s[0]] + rest;
        assert (Escape(s) + "%")[2..] == rest;
      } else {
        assert Escape(s) + "%" == [s[0]] + rest;
        assert (Escape(s) + "%")[1..] == rest;
      }
    }
  }

  /** Whatever the term, and wherever the cap cuts it, the pattern is one PostgreSQL accepts. */
  lemma SearchPatternIsWellFormed(s: string)
    ensures NoDanglingEscape(SearchPattern(s))
  {
    EscapeHasNoDangling(Capped(s));
    assert SearchPattern(s)[1..] == EscapeLike(s) + "%";
  }
}
