/**
 Scopes: hierarchical channel names such as "/a/b/".

 A scope is kept twice, as a list of components and as a normalised string.
 Equality and map order use the string, the hierarchy tests use the components;
 the lemmas of this module show that the two views never disagree.
 */
module Scopes {
  import opened Wrappers

  const SEPARATOR: char := '/'

  // The string size is computed in a 32-bit unsigned integer.
  const SIZE_LIMIT: nat := 0x1_0000_0000

  predicate LegalChar(c: char) {
    'a' <= c <= 'z' || 'A' <= c <= 'Z' || '0' <= c <= '9' || c == '_' || c == '-'
  }

  /** The alphabet, written out. */
  lemma LegalAlphabet(c: char)
    ensures LegalChar(c) <==>
      || c in "abcdefghijklm" || c in "nopqrstuvwxyz"
      || c in "ABCDEFGHIJKLM" || c in "NOPQRSTUVWXYZ"
      || c in "0123456789" || c in "_" || c in "-"
  {
    InRow(c, "abcdefghijklm", 'a');
    InRow(c, "nopqrstuvwxyz", 'n');
    InRow(c, "ABCDEFGHIJKLM", 'A');
    InRow(c, "NOPQRSTUVWXYZ", 'N');
    InRow(c, "0123456789", '0');
    InRow(c, "_", '_');
    InRow(c, "-", '-');
  }

  lemma InRow(c: char, row: string, first: char)
    requires forall i :: 0 <= i < |row| ==> row[i] as int == first as int + i
    ensures c in row <==> first as int <= c as int < first as int + |row|
  {
    if first as int <= c as int < first as int + |row| {
      assert row[c as int - first as int] == c;
    }
  }

  predicate LegalComponent(component: string) {
    component != "" && forall i :: 0 <= i < |component| ==> LegalChar(component[i])
  }

  predicate LegalComponents(components: seq<string>) {
    forall i :: 0 <= i < |components| ==> LegalComponent(components[i])
  }

  function PrintTail(components: seq<string>): string {
    if components == [] then "" else components[0] + [SEPARATOR] + PrintTail(components[1..])
  }

  /** The normalised string of a component list, with leading and trailing separator. */
  function Print(components: seq<string>): string {
    [SEPARATOR] + PrintTail(components)
  }

  datatype RawScope = Scope(components: seq<string>, scopestring: string)

  predicate ValidScope(s: RawScope) {
    LegalComponents(s.components) && s.scopestring == Print(s.components)
  }

  type Scope = s: RawScope | ValidScope(s) witness Scope([], "/")

  function ScopeOf(components: seq<string>): Scope
    requires LegalComponents(components)
  {
    Scope(components, Print(components))
  }

  const ROOT: Scope := Scope([], "/")

  /** `upper` equals `lower` or is one of its super-scopes: what routing asks. */
  predicate Covers(upper: Scope, lower: Scope) {
    upper.components <= lower.components
  }

  // ---------------------------------------------------------------------
  // The accepted language
  // ---------------------------------------------------------------------

  /** The grammar: slash-separated legal components, the final slash being optional. */
  ghost predicate Denotes(s: string, components: seq<string>) {
    s != "" && LegalComponents(components) && (s == Print(components) || s + [SEPARATOR] == Print(components))
  }

  /** Position `k` makes `s` illegal: a second separator in a row or an illegal character. */
  predicate Offends(s: string, k: nat)
    requires 1 <= k < |s|
  {
    if s[k] == SEPARATOR then s[k - 1] == SEPARATOR else !LegalChar(s[k])
  }

  datatype SyntaxError =
    | EmptyString
    | NoLeadingSeparator
    | ZeroLengthComponent(at: nat)
    | InvalidCharacter(at: nat)

  /** `error` is the error for the first thing wrong with `s`, scanning left to right. */
  ghost predicate FirstError(s: string, error: SyntaxError) {
    match error
    case EmptyString => s == ""
    case NoLeadingSeparator => s != "" && s[0] != SEPARATOR
    case ZeroLengthComponent(k) =>
      && s != "" && s[0] == SEPARATOR && 1 <= k < |s| && s[k] == SEPARATOR && Offends(s, k)
      && forall j :: 1 <= j < k ==> !Offends(s, j)
    case InvalidCharacter(k) =>
      && s != "" && s[0] == SEPARATOR && 1 <= k < |s| && s[k] != SEPARATOR && Offends(s, k)
      && forall j :: 1 <= j < k ==> !Offends(s, j)
  }

  // ---------------------------------------------------------------------
  // Facts about the printed form
  // ---------------------------------------------------------------------

  lemma {:induction false} PrintTailConcat(a: seq<string>, b: seq<string>)
    ensures PrintTail(a + b) == PrintTail(a) + PrintTail(b)
  {
    if a == [] {
      assert a + b == b;
    } else {
      assert (a + b)[1..] == a[1..] + b;
      PrintTailConcat(a[1..], b);
    }
  }

  /** The printed form starts as a slash and grows by each component and one more slash. */
  lemma PrintAppend(components: seq<string>, component: string)
    ensures Print([]) == "/"
    ensures Print(components + [component]) == Print(components) + component + "/"
  {
    PrintTailConcat(components, [component]);
    assert PrintTail([component]) == component + [SEPARATOR] + PrintTail([]);
  }

  lemma PrintEndsWithSeparator(components: seq<string>)
    ensures Print(components)[|Print(components)| - 1] == SEPARATOR
  {
    if components != [] {
      var n := |components| - 1;
      assert components == components[..n] + [components[n]];
      PrintAppend(components[..n], components[n]);
    }
  }

  lemma {:induction false} PrintNeverOffends(components: seq<string>, k: nat)
    requires LegalComponents(components) && 1 <= k < |Print(components)|
    ensures !Offends(Print(components), k)
  {
    var n := |components| - 1;
    assert components == components[..n] + [components[n]];
    PrintAppend(components[..n], components[n]);
    var front := Print(components[..n]);
    if k < |front| {
      PrintNeverOffends(components[..n], k);
      assert Print(components)[k] == front[k] && Print(components)[k - 1] == front[k - 1];
    } else {
      assert Print(components)[|front|..] == components[n] + [SEPARATOR];
      assert Print(components)[k] == (components[n] + [SEPARATOR])[k - |front|];
      if k > |front| {
        assert Print(components)[k - 1] == (components[n] + [SEPARATOR])[k - 1 - |front|];
      }
    }
  }

  /** What a denoted string looks like, character by character. */
  lemma DenotedIsClean(s: string, components: seq<string>)
    requires Denotes(s, components)
    ensures s[0] == SEPARATOR
    ensures forall k :: 1 <= k < |s| ==> !Offends(s, k)
  {
    var printed := Print(components);
    assert forall i :: 0 <= i < |s| ==> s[i] == printed[i];
    forall k | 1 <= k < |s|
      ensures !Offends(s, k)
    {
      PrintNeverOffends(components, k);
    }
  }

  /** String prefix order and component prefix order coincide. */
  lemma {:induction false} PrefixViews(a: seq<string>, b: seq<string>)
    requires LegalComponents(a) && LegalComponents(b)
    ensures PrintTail(a) <= PrintTail(b) <==> a <= b
  {
    if a == [] {
    } else if b == [] {
      assert |PrintTail(a)| > 0;
    } else {
      var x, y := a[0] + [SEPARATOR], b[0] + [SEPARATOR];
      assert PrintTail(a) == x + PrintTail(a[1..]) && PrintTail(b) == y + PrintTail(b[1..]);
      if a[0] == b[0] {
        PrefixViews(a[1..], b[1..]);
        assert PrintTail(a) <= PrintTail(b) <==> PrintTail(a[1..]) <= PrintTail(b[1..]) by {
          assert PrintTail(a[1..]) == PrintTail(a)[|x|..];
          assert PrintTail(b[1..]) == PrintTail(b)[|x|..];
          if PrintTail(a[1..]) <= PrintTail(b[1..]) {
            assert PrintTail(b)[..|PrintTail(a)|] == x + PrintTail(b[1..])[..|PrintTail(a[1..])|];
          }
          if PrintTail(a) <= PrintTail(b) {
            assert PrintTail(b[1..])[..|PrintTail(a[1..])|] == PrintTail(b)[..|PrintTail(a)|][|x|..];
          }
        }
        assert a <= b <==> a[1..] <= b[1..] by {
          assert a == [a[0]] + a[1..] && b == [b[0]] + b[1..];
          if a[1..] <= b[1..] {
            assert b[..|a|] == [b[0]] + b[1..][..|a| - 1];
          }
          if a <= b {
            assert b[1..][..|a| - 1] == b[..|a|][1..];
          }
        }
      } else {
        assert !(a <= b);
        DifferentHeads(a, b);
      }
    }
  }

  lemma DifferentHeads(a: seq<string>, b: seq<string>)
    requires LegalComponents(a) && LegalComponents(b) && a != [] && b != [] && a[0] != b[0]
    ensures !(PrintTail(a) <= PrintTail(b))
  {
    var p, q := PrintTail(a), PrintTail(b);
    var m, n := |a[0]|, |b[0]|;
    assert p[..m] == a[0] && p[m] == SEPARATOR;
    assert q[..n] == b[0] && q[n] == SEPARATOR;
    assert m < n ==> LegalChar(b[0][m]) && q[m] == b[0][m];
    assert n < m ==> LegalChar(a[0][n]) && p[n] == a[0][n];
  }

  lemma PrintInjective(a: seq<string>, b: seq<string>)
    requires LegalComponents(a) && LegalComponents(b) && Print(a) == Print(b)
    ensures a == b
  {
    assert PrintTail(a) == Print(a)[1..] && PrintTail(b) == Print(b)[1..];
    PrefixViews(a, b);
    PrefixViews(b, a);
  }

  /** No string denotes two different component lists. */
  lemma DenotesUnique(s: string, a: seq<string>, b: seq<string>)
    requires Denotes(s, a) && Denotes(s, b)
    ensures a == b
  {
    if Print(a) == Print(b) {
      PrintInjective(a, b);
    } else {
      var shorter, longer := if s == Print(a) then a else b, if s == Print(a) then b else a;
      assert s == Print(shorter) && s + [SEPARATOR] == Print(longer);
      PrintEndsWithSeparator(shorter);
      PrintNeverOffends(longer, |s|);
      assert false;
    }
  }

  // ---------------------------------------------------------------------
  // Parser and printer
  // ---------------------------------------------------------------------

  /** Checks and splits a scope string; the two constructors from strings are this. */
  method VerifyAndSplit(s: string) returns (r: Result<Scope, SyntaxError>)
    ensures r.Success? <==> exists components :: Denotes(s, components)
    ensures forall components :: Denotes(s, components) ==> r == Success(ScopeOf(components))
    ensures r.Success? <==> s != "" && s[0] == SEPARATOR && forall k :: 1 <= k < |s| ==> !Offends(s, k)
    ensures r.Failure? ==> FirstError(s, r.error)
  {
    if s == "" {
      return Failure(EmptyString);
    }
    if s[0] != SEPARATOR {
      forall components
        ensures !Denotes(s, components)
      {
        if Denotes(s, components) { DenotedIsClean(s, components); }
      }
      return Failure(NoLeadingSeparator);
    }
    var components: seq<string> := [];
    var prev, next := 0, 1;
    assert s[..1] == Print([]);
    hide Print;
    while next < |s|
      invariant 0 <= prev < next <= |s| && s[prev] == SEPARATOR
      invariant LegalComponents(components) && s[..prev + 1] == Print(components)
      invariant forall k :: prev < k < next ==> LegalChar(s[k])
      invariant forall k :: 1 <= k < next ==> !Offends(s, k)
    {
      if s[next] == SEPARATOR {
        if next - prev == 1 {
          assert Offends(s, next);
          OffenderRejected(s, next);
          return Failure(ZeroLengthComponent(next));
        }
        var component := s[prev + 1..next];
        PrintedSoFar(s, prev, next, components);
        components := components + [component];
        prev := next;
      } else if !LegalChar(s[next]) {
        assert Offends(s, next);
        OffenderRejected(s, next);
        return Failure(InvalidCharacter(next));
      }
      next := next + 1;
    }
    var normalized := s;
    if prev + 1 != next {
      var component := s[prev + 1..next];
      PrintedLast(s, prev, components);
      assert LegalChar(s[|s| - 1]);
      components := components + [component];
    } else {
      assert s[..prev + 1] == s;
    }
    if s[|s| - 1] != SEPARATOR {
      normalized := normalized + [SEPARATOR];
    }
    OnlyDenotes(s, components);
    r := Success(Scope(components, normalized));
  }

  /** The part of `s` up to the separator at `next` is one component longer than up to the one at `prev`. */
  lemma PrintedSoFar(s: string, prev: nat, next: nat, components: seq<string>)
    requires prev < next < |s| && s[next] == SEPARATOR && s[..prev + 1] == Print(components)
    ensures s[..next + 1] == Print(components + [s[prev + 1..next]])
  {
    hide Print;
    PrintAppend(components, s[prev + 1..next]);
    assert s[..next + 1] == s[..prev + 1] + s[prev + 1..next] + [SEPARATOR];
  }

  lemma PrintedLast(s: string, prev: nat, components: seq<string>)
    requires prev + 1 < |s| && s[..prev + 1] == Print(components)
    ensures s + [SEPARATOR] == Print(components + [s[prev + 1..|s|]])
  {
    hide Print;
    PrintAppend(components, s[prev + 1..|s|]);
    assert s + [SEPARATOR] == s[..prev + 1] + s[prev + 1..|s|] + [SEPARATOR];
  }

  lemma OnlyDenotes(s: string, components: seq<string>)
    requires Denotes(s, components)
    ensures forall other :: Denotes(s, other) ==> other == components
  {
    hide Denotes;
    forall other | Denotes(s, other)
      ensures other == components
    {
      DenotesUnique(s, other, components);
    }
  }

  lemma OffenderRejected(s: string, k: nat)
    requires 1 <= k < |s| && Offends(s, k)
    ensures forall components :: !Denotes(s, components)
  {
    forall components
      ensures !Denotes(s, components)
    {
      if Denotes(s, components) { DenotedIsClean(s, components); }
    }
  }

  lemma {:induction false} PrintTailPrefixSize(components: seq<string>, n: nat)
    requires n <= |components|
    ensures PrintTail(components[..n]) <= PrintTail(components)
  {
    assert components == components[..n] + components[n..];
    PrintTailConcat(components[..n], components[n..]);
  }

  /** Copies `text` into the buffer at `cursor`. */
  method CopyAt(buffer: array<char>, cursor: nat, text: string)
    requires cursor + |text| <= buffer.Length
    modifies buffer
    ensures buffer[..cursor + |text|] == old(buffer[..cursor]) + text
    ensures buffer[cursor + |text|..] == old(buffer[cursor + |text|..])
  {
    var i := 0;
    while i < |text|
      invariant i <= |text| && buffer[..cursor + i] == old(buffer[..cursor]) + text[..i]
      invariant buffer[cursor + |text|..] == old(buffer[cursor + |text|..])
    {
      buffer[cursor + i] := text[i];
      i := i + 1;
    }
  }

  /**
   Prints the components into a buffer of the size computed beforehand. Every
   write through the cursor is inside the buffer and the last one fills it.
   */
  method UpdateStringCache(components: seq<string>) returns (scopestring: string)
    requires |Print(components)| < SIZE_LIMIT
    ensures scopestring == Print(components)
  {
    var scopesize := 1;
    var it := 0;
    assert components[..0] == [];
    while it < |components|
      invariant it <= |components| && scopesize == |Print(components[..it])| < SIZE_LIMIT
    {
      PrintTailPrefixSize(components, it + 1);
      assert components[..it + 1] == components[..it] + [components[it]];
      PrintAppend(components[..it], components[it]);
      scopesize := (scopesize + |components[it]| + 1) % SIZE_LIMIT;
      it := it + 1;
    }
    assert components[..|components|] == components;

    var buffer := new char[scopesize];
    buffer[0] := SEPARATOR;
    var cursor := 1;
    it := 0;
    while it < |components|
      invariant it <= |components| && 1 <= cursor <= buffer.Length
      invariant buffer[..cursor] == Print(components[..it])
    {
      PrintTailPrefixSize(components, it + 1);
      assert components[..it + 1] == components[..it] + [components[it]];
      PrintAppend(components[..it], components[it]);
      CopyAt(buffer, cursor, components[it]);
      cursor := cursor + |components[it]|;
      buffer[cursor] := SEPARATOR;
      cursor := cursor + 1;
      assert buffer[..cursor] == buffer[..cursor - 1] + [SEPARATOR];
      it := it + 1;
    }
    assert cursor == buffer.Length;
    scopestring := buffer[..];
  }

  // ---------------------------------------------------------------------
  // Scope operations
  // ---------------------------------------------------------------------

  lemma PrintConcat(a: Scope, b: Scope)
    ensures LegalComponents(a.components + b.components)
    ensures Print(a.components + b.components) == a.scopestring + b.scopestring[1..]
  {
    PrintTailConcat(a.components, b.components);
    var x, y := PrintTail(a.components), PrintTail(b.components);
    assert a.scopestring == [SEPARATOR] + x && b.scopestring[1..] == y;
    assert [SEPARATOR] + (x + y) == ([SEPARATOR] + x) + y;
  }

  function Concatenation(a: Scope, b: Scope): Scope {
    ScopeOf(a.components + b.components)
  }

  /** Concatenation is associative with the root as identity, and its result lies below its first operand. */
  lemma ConcatenationLaws(a: Scope, b: Scope, c: Scope)
    ensures Concatenation(Concatenation(a, b), c) == Concatenation(a, Concatenation(b, c))
    ensures Concatenation(a, ROOT) == a == Concatenation(ROOT, a)
    ensures Covers(a, Concatenation(a, b)) && (a == Concatenation(a, b) <==> b == ROOT)
  {
    assert a.components + b.components + c.components == a.components + (b.components + c.components);
    assert a.components + [] == a.components == [] + a.components;
  }

  /** Concatenates component lists; as strings the child loses its leading separator. */
  method Concat(self: Scope, child: Scope) returns (result: Scope)
    requires |Print(self.components + child.components)| < SIZE_LIMIT
    ensures result == Concatenation(self, child)
    ensures result.scopestring == self.scopestring + child.scopestring[1..]
  {
    var components := self.components;
    var it := 0;
    while it < |child.components|
      invariant it <= |child.components| && components == self.components + child.components[..it]
    {
      components := components + [child.components[it]];
      it := it + 1;
    }
    assert components == self.components + child.components;
    var scopestring := UpdateStringCache(components);
    PrintConcat(self, child);
    result := Scope(components, scopestring);
  }

  method IsSubScopeOf(self: Scope, other: Scope) returns (r: bool)
    ensures r <==> other != self && Covers(other, self)
    ensures r <==> other.scopestring < self.scopestring
  {
    HierarchyViews(other, self);
    if |self.components| <= |other.components| {
      return false;
    }
    var i := 0;
    while i < |other.components|
      invariant i <= |other.components| && self.components[..i] == other.components[..i]
    {
      if self.components[i] != other.components[i] {
        return false;
      }
      i := i + 1;
    }
    assert other.components[..i] == other.components;
    return true;
  }

  method IsSuperScopeOf(self: Scope, other: Scope) returns (r: bool)
    ensures r <==> self != other && Covers(self, other)
    ensures r <==> self.scopestring < other.scopestring
  {
    HierarchyViews(self, other);
    if |self.components| >= |other.components| {
      return false;
    }
    var i := 0;
    while i < |self.components|
      invariant i <= |self.components| && self.components[..i] == other.components[..i]
    {
      if self.components[i] != other.components[i] {
        return false;
      }
      i := i + 1;
    }
    assert self.components[..i] == self.components;
    return true;
  }

  function Ancestor(s: Scope, k: nat): (r: Scope)
    requires k <= |s.components|
    ensures Covers(r, s) && |r.components| == k
  {
    ScopeOf(s.components[..k])
  }

  /** All super-scopes in order of length, from the root; the scope itself last if asked for. */
  method SuperScopes(self: Scope, includeSelf: bool) returns (result: seq<Scope>)
    requires |self.scopestring| < SIZE_LIMIT
    ensures |result| == |self.components| + if includeSelf then 1 else 0
    ensures forall k :: 0 <= k < |result| ==> result[k] == Ancestor(self, k)
    ensures forall other: Scope :: other in result <==> Covers(other, self) && (includeSelf || other != self)
    ensures forall i, j :: 0 <= i < j < |result| ==> result[i].scopestring < result[j].scopestring
  {
    result := [];
    if self.components != [] {
      var required := 0;
      while required <= |self.components| - 1
        invariant required <= |self.components|
        invariant |result| == required
        invariant forall k :: 0 <= k < |result| ==> result[k] == Ancestor(self, k)
      {
        var components: seq<string> := [];
        var i := 0;
        while i < required
          invariant i <= required && components == self.components[..i]
        {
          components := components + [self.components[i]];
          i := i + 1;
        }
        PrintTailPrefixSize(self.components, required);
        var scopestring := UpdateStringCache(components);
        result := result + [Scope(components, scopestring)];
        required := required + 1;
      }
    }
    if includeSelf {
      assert self.components[..|self.components|] == self.components;
      result := result + [self];
    }
    AncestorsAreAll(self, result);
  }

  /** A list of the first ancestors in order holds each super-scope once, as strings each extending the last. */
  lemma AncestorsAreAll(self: Scope, list: seq<Scope>)
    requires |self.components| <= |list| <= |self.components| + 1
    requires forall k :: 0 <= k < |list| ==> list[k] == Ancestor(self, k)
    ensures forall other: Scope :: other in list <==>
      Covers(other, self) && (|list| == |self.components| + 1 || other != self)
    ensures forall i, j :: 0 <= i < j < |list| ==> list[i].scopestring < list[j].scopestring
  {
    forall other: Scope | Covers(other, self) && (|list| == |self.components| + 1 || other != self)
      ensures other in list
    {
      assert other.components == self.components[..|other.components|];
      assert |other.components| == |self.components| ==> other.components == self.components;
      assert list[|other.components|] == other;
    }
    forall i, j | 0 <= i < j < |list|
      ensures list[i].scopestring < list[j].scopestring
    {
      assert self.components[..i] == self.components[..j][..i];
      HierarchyViews(Ancestor(self, i), Ancestor(self, j));
    }
  }

  // ---------------------------------------------------------------------
  // The two views agree
  // ---------------------------------------------------------------------

  /** Comparing strings, as the equality operator does, is comparing scopes. */
  lemma EqualityViews(a: Scope, b: Scope)
    ensures a.scopestring == b.scopestring <==> a.components == b.components
    ensures a.scopestring == b.scopestring <==> a == b
  {
    if a.scopestring == b.scopestring {
      PrintInjective(a.components, b.components);
    }
  }

  /** The hierarchy on components is the proper-prefix order on strings. */
  lemma HierarchyViews(a: Scope, b: Scope)
    ensures a.components <= b.components <==> a.scopestring <= b.scopestring
    ensures a.components < b.components <==> a.scopestring < b.scopestring
    ensures a.components < b.components <==> a != b && Covers(a, b)
  {
    PrefixViews(a.components, b.components);
    assert PrintTail(a.components) == a.scopestring[1..] && PrintTail(b.components) == b.scopestring[1..];
    assert a.scopestring <= b.scopestring <==> PrintTail(a.components) <= PrintTail(b.components) by {
      if a.scopestring <= b.scopestring {
        assert b.scopestring[1..][..|a.scopestring| - 1] == b.scopestring[..|a.scopestring|][1..];
      }
      if PrintTail(a.components) <= PrintTail(b.components) {
        assert b.scopestring[..|a.scopestring|] == [SEPARATOR] + b.scopestring[1..][..|a.scopestring| - 1];
      }
    }
    EqualityViews(a, b);
    assert a.components < b.components <==> a.components <= b.components && a.components != b.components;
  }
}
