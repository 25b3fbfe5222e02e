/**
 * Mail template filling: each `{key}` placeholder is replaced by its value,
 * entry after entry, each replacement applied to the result of the previous
 * ones (a left fold of global, non-overlapping replacements).
 */
module EmailHelper {

  predicate IsWordChar(c: char) {
    'A' <= c <= 'Z' || 'a' <= c <= 'z' || '0' <= c <= '9' || c == '_'
  }

  /**
   * A key whose pattern `{key}` the regular-expression engine reads as literal
   * text: word characters, not all of them digits (`{12}` would be a
   * quantifier with nothing to repeat, which the engine rejects).
   */
  predicate IsPlainKey(key: string) {
    (forall k :: 0 <= k < |key| ==> IsWordChar(key[k])) &&
    exists k :: 0 <= k < |key| && !('0' <= key[k] <= '9')
  }

  /** A value the replacement inserts literally (it has no `$` pattern). */
  predicate IsPlainValue(value: string) {
    forall k :: 0 <= k < |value| ==> value[k] != '$'
  }

  function Placeholder(key: string): (p: string)
    ensures |p| == |key| + 2
  {
    "{" + key + "}"
  }

  predicate OccursAt(s: string, pattern: string, i: int) {
    0 <= i && i + |pattern| <= |s| && s[i..i + |pattern|] == pattern
  }


  /** No occurrence of `pattern` anywhere in `s`. */
  ghost predicate Free(s: string, pattern: string) {
    forall i :: !OccursAt(s, pattern, i)
  }

  /**
   * Putting a character that does not start a match in front of a piece free
   * of the pattern, where that piece begins the rest of the text, keeps it free.
   */
  lemma PrependKeepsFree(s: string, pattern: string, piece: string)
    requires |pattern| > 0 && |s| >= |pattern| && s[..|pattern|] != pattern
    requires piece <= s[1..] && Free(piece, pattern)
    ensures Free([s[0]] + piece, pattern)
  {
    var q := [s[0]] + piece;
    assert q <= s;
    forall i | 0 < i && OccursAt(q, pattern, i) ensures OccursAt(piece, pattern, i - 1) {
      assert piece[i - 1..i - 1 + |pattern|] == q[i..i + |pattern|];
    }
  }

  /**
   * The pieces of `s` between the matches ReplaceAll finds, in order: the
   * first piece begins the text, and no piece contains the pattern.
   */
  function Split(s: string, pattern: string): (parts: seq<string>)
    requires |pattern| > 0
    ensures |parts| >= 1
    ensures parts[0] <= s
    ensures forall j :: 0 <= j < |parts| ==> Free(parts[j], pattern)
    decreases |s|
  {
    if |s| < |pattern| then [s]
    else if s[..|pattern|] == pattern then [""] + Split(s[|pattern|..], pattern)
    else
      var t := Split(s[1..], pattern);
      PrependKeepsFree(s, pattern, t[0]);
      [[s[0]] + t[0]] + t[1..]
  }

  function Join(parts: seq<string>, separator: string): string
    requires |parts| >= 1
    decreases |parts|
  {
    if |parts| == 1 then parts[0] else parts[0] + separator + Join(parts[1..], separator)
  }

  /** Gluing after a first piece that was cut at the very start puts the separator first. */
  lemma JoinAfterEmpty(u: seq<string>, separator: string)
    requires |u| >= 1
    ensures Join([""] + u, separator) == separator + Join(u, separator)
  {
    assert ([""] + u)[1..] == u;
  }

  /** Gluing after a character prepended to the first piece puts that character first. */
  lemma JoinAfterChar(c: char, t: seq<string>, separator: string)
    requires |t| >= 1
    ensures Join([[c] + t[0]] + t[1..], separator) == [c] + Join(t, separator)
  {
    var parts := [[c] + t[0]] + t[1..];
    assert parts[1..] == t[1..];
    if |t| > 1 {
      assert Join(parts, separator) == ([c] + t[0]) + (separator + Join(t[1..], separator));
      assert Join(t, separator) == t[0] + (separator + Join(t[1..], separator));
    }
  }

  /**
   * Global replacement, scanning left to right; a replaced match is skipped
   * over. It is cutting the text at its matches and gluing the pieces, none of
   * which holds the pattern, with the value.
   */
  function ReplaceAll(s: string, pattern: string, value: string): (r: string)
    requires |pattern| > 0
    ensures r == Join(Split(s, pattern), value)
    decreases |s|
  {
    if |s| < |pattern| then s
    else if s[..|pattern|] == pattern then
      var rest := s[|pattern|..];
      JoinAfterEmpty(Split(rest, pattern), value);
      value + ReplaceAll(rest, pattern, value)
    else
      JoinAfterChar(s[0], Split(s[1..], pattern), value);
      [s[0]] + ReplaceAll(s[1..], pattern, value)
  }

  /** Gluing the pieces back with the pattern itself restores the text. */
  lemma {:induction false} SplitJoinRoundTrip(s: string, pattern: string)
    requires |pattern| > 0
    ensures Join(Split(s, pattern), pattern) == s
    decreases |s|
  {
    if |s| < |pattern| {
    } else if s[..|pattern|] == pattern {
      var rest := s[|pattern|..];
      SplitJoinRoundTrip(rest, pattern);
      JoinAfterEmpty(Split(rest, pattern), pattern);
      assert s == pattern + rest;
    } else {
      SplitJoinRoundTrip(s[1..], pattern);
      JoinAfterChar(s[0], Split(s[1..], pattern), pattern);
      assert s == [s[0]] + s[1..];
    }
  }

  /** So replacing a placeholder by itself changes nothing. */
  lemma ReplaceBySelfIsIdentity(s: string, pattern: string)
    requires |pattern| > 0
    ensures ReplaceAll(s, pattern, pattern) == s
  {
    SplitJoinRoundTrip(s, pattern);
  }

  /** A text in which the pattern does not occur comes back unchanged. */
  lemma {:induction false} NoMatchNoChange(s: string, pattern: string, value: string)
    requires |pattern| > 0
    requires Free(s, pattern)
    ensures ReplaceAll(s, pattern, value) == s
    decreases |s|
  {
    if |s| >= |pattern| {
      assert !OccursAt(s, pattern, 0);
      forall i ensures !OccursAt(s[1..], pattern, i) {
        if OccursAt(s[1..], pattern, i) {
          assert s[1..][i..i + |pattern|] == s[i + 1..i + 1 + |pattern|];
          assert OccursAt(s, pattern, i + 1);
        }
      }
      NoMatchNoChange(s[1..], pattern, value);
    }
  }

  /** The replacement entries, in the order the object enumerates them. */
  predicate PlainEntries(entries: seq<(string, string)>) {
    forall i :: 0 <= i < |entries| ==> IsPlainKey(entries[i].0) && IsPlainValue(entries[i].1)
  }

  /** Every placeholder begins with `{`, so text without one holds no placeholder. */
  lemma NoBraceNoPlaceholder(s: string, key: string)
    requires forall k :: 0 <= k < |s| ==> s[k] != '{'
    ensures Free(s, Placeholder(key))
  {
    forall i | 0 <= i < |s| - |key| - 1 ensures !OccursAt(s, Placeholder(key), i) {
      assert s[i] != '{';
    }
  }

  /**
   * `applyTemplateReplacements(template, replacements)`: with no entries, or
   * with a template without any `{`, the template comes back unchanged.
   */
  function ApplyTemplateReplacements(template: string, entries: seq<(string, string)>): (r: string)
    requires PlainEntries(entries)
    ensures entries == [] ==> r == template
    ensures (forall k :: 0 <= k < |template| ==> template[k] != '{') ==> r == template
    decreases |entries|
  {
    if entries == [] then template
    else
      var next := ReplaceAll(template, Placeholder(entries[0].0), entries[0].1);
      if forall k :: 0 <= k < |template| ==> template[k] != '{' then
        NoBraceNoPlaceholder(template, entries[0].0);
        NoMatchNoChange(template, Placeholder(entries[0].0), entries[0].1);
        ApplyTemplateReplacements(next, entries[1..])
      else
        ApplyTemplateReplacements(next, entries[1..])
  }

  /** No entries: the template is returned as it is. */
  lemma NoEntriesNoChange(template: string)
    ensures ApplyTemplateReplacements(template, []) == template
  {
  }

  /**
   * One entry: the template is its pieces free of `{key}` glued by `{key}`,
   * and the answer is the same pieces glued by the value, so every match of
   * the placeholder is replaced, and nothing else.
   */
  lemma SingleEntry(template: string, key: string, value: string)
    requires IsPlainKey(key) && IsPlainValue(value)
    ensures var parts := Split(template, Placeholder(key));
            && Join(parts, Placeholder(key)) == template
            && (forall j :: 0 <= j < |parts| ==> Free(parts[j], Placeholder(key)))
            && ApplyTemplateReplacements(template, [(key, value)]) == Join(parts, value)
  {
    SplitJoinRoundTrip(template, Placeholder(key));
    assert [(key, value)][1..] == [];
  }

  /** Entries are applied in order, each to the previous result. */
  lemma {:induction false} ApplyInSequence(template: string, first: seq<(string, string)>,
                                           second: seq<(string, string)>)
    requires PlainEntries(first) && PlainEntries(second)
    ensures PlainEntries(first + second)
    ensures ApplyTemplateReplacements(template, first + second)
         == ApplyTemplateReplacements(ApplyTemplateReplacements(template, first), second)
    decreases |first|
  {
    if first == [] {
      assert first + second == second;
    } else {
      var t := ReplaceAll(template, Placeholder(first[0].0), first[0].1);
      assert (first + second)[1..] == first[1..] + second;
      ApplyInSequence(t, first[1..], second);
    }
  }

  /** An entry whose placeholder the template does not contain leaves it unchanged. */
  lemma AbsentKeyNoChange(template: string, key: string, value: string)
    requires IsPlainKey(key) && IsPlainValue(value)
    requires Free(template, Placeholder(key))
    ensures ApplyTemplateReplacements(template, [(key, value)]) == template
  {
    NoMatchNoChange(template, Placeholder(key), value);
    assert [(key, value)][1..] == [];
  }

  lemma ReplaceWholeMatch(pattern: string, value: string)
    requires |pattern| > 0
    ensures ReplaceAll(pattern, pattern, value) == value
  {
    assert pattern[..|pattern|] == pattern;
    assert ReplaceAll(pattern[|pattern|..], pattern, value) == [];
  }

  /**
   * A value that is itself a later placeholder is filled in by the later
   * entry: `{a}` with `a -> {b}` then `b -> v` ends up as `v`.
   */
  lemma LaterEntrySeesEarlierValue(a: string, b: string, value: string)
    requires IsPlainKey(a) && IsPlainKey(b) && IsPlainValue(value)
    ensures PlainEntries([(a, Placeholder(b)), (b, value)])
    ensures ApplyTemplateReplacements(Placeholder(a), [(a, Placeholder(b)), (b, value)]) == value
  {
    assert IsPlainValue(Placeholder(b)) by {
      assert forall k :: 0 <= k < |b| ==> Placeholder(b)[k + 1] == b[k];
    }
    var entries := [(a, Placeholder(b)), (b, value)];
    assert entries[1..] == [(b, value)];
    assert entries[1..][1..] == [];
    ReplaceWholeMatch(Placeholder(a), Placeholder(b));
    ReplaceWholeMatch(Placeholder(b), value);
    calc {
      ApplyTemplateReplacements(Placeholder(a), entries);
      ApplyTemplateReplacements(ReplaceAll(Placeholder(a), Placeholder(a), Placeholder(b)), entries[1..]);
      ApplyTemplateReplacements(Placeholder(b), [(b, value)]);
      ApplyTemplateReplacements(ReplaceAll(Placeholder(b), Placeholder(b), value), []);
      value;
    }
  }
}
