/**
 * `IPAFormCanonization`: the fixed substitution table that rewrites
 * precomposed vowels as base letter plus combining mark (and `g` as the IPA
 * script g), and `process`, the left-to-right transducer that applies it
 * and drops parenthesised comments.
 */
module IpaCanonization {
  import opened Wrappers

  /**
   * The `replacements` table, as its `get`: `None` stands for the `null`
   * of a character that is not a key. Keys are single characters; values are
   * the base letter followed by a combining mark (U+0300 grave, U+0301
   * acute, U+0302 circumflex, U+0303 tilde, U+0304 macron, U+0308
   * diaeresis, U+030B double acute, U+030C caron, U+030F double grave). The
   * breve entries are written with the empty string as their value, so a
   * breve vowel is deleted.
   */
  function Replacement(c: char): Option<string> {
    match c
      // the IPA script g
      case 'g' => Some(['\U{0261}'])
      // acute accent
      case '\U{00E1}' => Some(['a', '\U{0301}'])
      case '\U{00E9}' => Some(['e', '\U{0301}'])
      case '\U{00ED}' => Some(['i', '\U{0301}'])
      case '\U{00F3}' => Some(['o', '\U{0301}'])
      case '\U{00FA}' => Some(['u', '\U{0301}'])
      case '\U{00FD}' => Some(['y', '\U{0301}'])
      // grave accent
      case '\U{00E0}' => Some(['a', '\U{0300}'])
      case '\U{00E8}' => Some(['e', '\U{0300}'])
      case '\U{00EC}' => Some(['i', '\U{0300}'])
      case '\U{00F2}' => Some(['o', '\U{0300}'])
      case '\U{00F9}' => Some(['u', '\U{0300}'])
      case '\U{1EF3}' => Some(['y', '\U{0300}'])
      // double acute
      case '\U{0151}' => Some(['o', '\U{030B}'])
      case '\U{0171}' => Some(['u', '\U{030B}'])
      // double grave
      case '\U{0201}' => Some(['a', '\U{030F}'])
      case '\U{0205}' => Some(['e', '\U{030F}'])
      case '\U{0209}' => Some(['i', '\U{030F}'])
      case '\U{020D}' => Some(['o', '\U{030F}'])
      case '\U{0215}' => Some(['u', '\U{030F}'])
      // circumflex
      case '\U{00E2}' => Some(['a', '\U{0302}'])
      case '\U{00EA}' => Some(['e', '\U{0302}'])
      case '\U{00EE}' => Some(['i', '\U{0302}'])
      case '\U{00F4}' => Some(['o', '\U{0302}'])
      case '\U{00FB}' => Some(['u', '\U{0302}'])
      case '\U{0177}' => Some(['y', '\U{0302}'])
      // caron
      case '\U{01CE}' => Some(['a', '\U{030C}'])
      case '\U{011B}' => Some(['e', '\U{030C}'])
      case '\U{01D0}' => Some(['i', '\U{030C}'])
      case '\U{01D2}' => Some(['o', '\U{030C}'])
      case '\U{01D4}' => Some(['u', '\U{030C}'])
      // trema
      case '\U{00E4}' => Some(['a', '\U{0308}'])
      case '\U{00EB}' => Some(['e', '\U{0308}'])
      case '\U{00EF}' => Some(['i', '\U{0308}'])
      case '\U{00F6}' => Some(['o', '\U{0308}'])
      case '\U{00FC}' => Some(['u', '\U{0308}'])
      case '\U{00FF}' => Some(['y', '\U{0308}'])
      // tilde
      case '\U{00E3}' => Some(['a', '\U{0303}'])
      case '\U{1EBD}' => Some(['e', '\U{0303}'])
      case '\U{0129}' => Some(['i', '\U{0303}'])
      case '\U{00F5}' => Some(['o', '\U{0303}'])
      case '\U{0169}' => Some(['u', '\U{0303}'])
      case '\U{1EF9}' => Some(['y', '\U{0303}'])
      // macron
      case '\U{0101}' => Some(['a', '\U{0304}'])
      case '\U{0113}' => Some(['e', '\U{0304}'])
      case '\U{012B}' => Some(['i', '\U{0304}'])
      case '\U{014D}' => Some(['o', '\U{0304}'])
      case '\U{016B}' => Some(['u', '\U{0304}'])
      case '\U{0233}' => Some(['y', '\U{0304}'])
      // breve: mapped to the empty string
      case '\U{0103}' => Some("")
      case '\U{0115}' => Some("")
      case '\U{012D}' => Some("")
      case '\U{014F}' => Some("")
      case '\U{016D}' => Some("")
      case _ => None
  }

  /** The characters the table values are made of: six base letters, U+0261 and the combining marks. */
  const ValueChars: set<char> := {
    'a', 'e', 'i', 'o', 'u', 'y', '\U{0261}',
    '\U{0300}', '\U{0301}', '\U{0302}', '\U{0303}', '\U{0304}',
    '\U{0308}', '\U{030B}', '\U{030C}', '\U{030F}'
  }

  /** Characters `process` neither rewrites nor treats as the start of a comment. */
  predicate Inert(c: char) {
    Replacement(c).None? && c != '('
  }

  /** A string `process` copies unchanged. */
  predicate Clean(s: string) {
    forall k :: 0 <= k < |s| ==> Inert(s[k])
  }

  /** Every key is `g`, a Latin-1 letter or lies in one of the two extended-Latin blocks. */
  lemma KeyRange(c: char)
    requires Replacement(c).Some?
    ensures || c == 'g'
            || '\U{00E0}' <= c <= '\U{00FF}'
            || '\U{0101}' <= c <= '\U{0233}'
            || '\U{1EBD}' <= c <= '\U{1EF9}'
  {
  }

  lemma ValueCharsInert(v: char)
    requires v in ValueChars
    ensures Inert(v)
  {
    if Replacement(v).Some? {
      KeyRange(v);
      assert false;
    }
  }

  /** ASCII below `g`, the parentheses among them, is never a key. */
  lemma BelowGIsNoKey(c: char)
    requires c < 'g'
    ensures Replacement(c).None?
  {
    if Replacement(c).Some? {
      KeyRange(c);
      assert false;
    }
  }

  /**
   * No table value holds a key of the table or `(`: the table is applied in
   * one pass, and what it produces is never rewritten again.
   */
  lemma TableValueClean(c: char)
    requires Replacement(c).Some?
    ensures Clean(Replacement(c).value)
  {
    var v := Replacement(c).value;
    assert forall k :: 0 <= k < |v| ==> v[k] in ValueChars;
    forall k | 0 <= k < |v|
      ensures Inert(v[k])
    {
      ValueCharsInert(v[k]);
    }
  }

  lemma CleanAppend(a: string, b: string)
    requires Clean(a) && Clean(b)
    ensures Clean(a + b)
  {
    assert forall k :: 0 <= k < |a + b| ==> (a + b)[k] == if k < |a| then a[k] else b[k - |a|];
  }

  /**
   * The loop of `process` from some position on, with `inParen` the value of
   * `inParentheses` there: inside a comment every character is skipped and
   * the first `)` ends the comment; outside, a table character is replaced,
   * `(` opens a comment and anything else is copied. The output is clean:
   * it holds no table key and no `(`.
   */
  function ProcessFrom(s: string, inParen: bool): (r: string)
    ensures Clean(r)
    ensures |r| <= 2 * |s|
    decreases |s|
  {
    if |s| == 0 then ""
    else if inParen then ProcessFrom(s[1..], s[0] != ')')
    else match Replacement(s[0])
      case Some(v) =>
        TableValueClean(s[0]);
        CleanAppend(v, ProcessFrom(s[1..], false));
        v + ProcessFrom(s[1..], false)
      case None =>
        if s[0] == '(' then ProcessFrom(s[1..], true)
        else
          CleanAppend([s[0]], ProcessFrom(s[1..], false));
          [s[0]] + ProcessFrom(s[1..], false)
  }

  /** `IPAFormCanonization.process`. */
  function Process(rawForm: string): string {
    ProcessFrom(rawForm, false)
  }

  /** One iteration of the loop, in each of its three cases. */
  lemma ProcessFromCons(s: string, inParen: bool)
    requires |s| > 0
    ensures inParen ==> ProcessFrom(s, inParen) == ProcessFrom(s[1..], s[0] != ')')
    ensures !inParen && Replacement(s[0]).Some? ==>
              ProcessFrom(s, inParen) == Replacement(s[0]).value + ProcessFrom(s[1..], false)
    ensures !inParen && Replacement(s[0]).None? && s[0] == '(' ==>
              ProcessFrom(s, inParen) == ProcessFrom(s[1..], true)
    ensures !inParen && Replacement(s[0]).None? && s[0] != '(' ==>
              ProcessFrom(s, inParen) == [s[0]] + ProcessFrom(s[1..], false)
  {
  }

  /**
   * `process` as the loop it is: `canonized` is the `StringBuilder`, and
   * what is still to be appended is the rest of the input read from the
   * current `inParentheses`.
   */
  method Canonize(rawForm: string) returns (canonized: string)
    ensures canonized == Process(rawForm)
    ensures Clean(canonized)
  {
    var inParentheses := false;
    canonized := "";
    var i := 0;
    while i < |rawForm|
      invariant 0 <= i <= |rawForm|
      invariant canonized + ProcessFrom(rawForm[i..], inParentheses) == Process(rawForm)
      decreases |rawForm| - i
    {
      var c := rawForm[i];
      ProcessFromCons(rawForm[i..], inParentheses);
      assert rawForm[i..][1..] == rawForm[i + 1..];
      if inParentheses {
        if c == ')' {
          inParentheses := false;
        }
        i := i + 1;
        continue;
      }
      var replacement := Replacement(c);
      match replacement {
        case Some(v) =>
          canonized := canonized + v;
        case None =>
          if c == '(' {
            inParentheses := true;
          } else {
            canonized := canonized + [c];
          }
      }
      i := i + 1;
    }
  }

  /** The value of `inParentheses` after the loop has read `c`. */
  function Next(c: char, inParen: bool): bool {
    if inParen then c != ')' else Replacement(c).None? && c == '('
  }

  /** What the loop appends for `c`: nothing inside a comment or for its `(`. */
  function Emit(c: char, inParen: bool): string {
    if inParen then ""
    else
      match Replacement(c)
      case Some(v) => v
      case None => if c == '(' then "" else [c]
  }

  /** The value of `inParentheses` after the loop has read `s`, starting from `inParen`. */
  function EndState(s: string, inParen: bool): bool
    decreases |s|
  {
    if |s| == 0 then inParen else EndState(s[1..], Next(s[0], inParen))
  }

  /** One iteration of the loop: the first character's output, then the rest from the state it leaves. */
  lemma ProcessFromStep(s: string, inParen: bool)
    requires |s| > 0
    ensures ProcessFrom(s, inParen) == Emit(s[0], inParen) + ProcessFrom(s[1..], Next(s[0], inParen))
  {
    ProcessFromCons(s, inParen);
  }

  /** The loop reads its input left to right, carrying only `inParentheses` across. */
  lemma {:induction false} ProcessConcat(s: string, t: string, inParen: bool)
    ensures ProcessFrom(s + t, inParen) == ProcessFrom(s, inParen) + ProcessFrom(t, EndState(s, inParen))
    decreases |s|
  {
    if |s| > 0 {
      var n := Next(s[0], inParen);
      assert (s + t)[0] == s[0];
      assert (s + t)[1..] == s[1..] + t;
      ProcessFromStep(s + t, inParen);
      ProcessFromStep(s, inParen);
      ProcessConcat(s[1..], t, n);
    } else {
      assert s + t == t;
    }
  }

  /** What one character outside a comment turns into when there is no `(` around. */
  function Image(c: char): string {
    match Replacement(c)
    case Some(v) => v
    case None => [c]
  }

  /** Character-by-character substitution through the table, the reference for comment-free input. */
  function Substitute(s: string): string
    decreases |s|
  {
    if |s| == 0 then "" else Image(s[0]) + Substitute(s[1..])
  }

  /** Without `(` the transducer is a plain per-character substitution and never enters a comment. */
  lemma {:induction false} NoCommentIsSubstitution(s: string)
    requires '(' !in s
    ensures Process(s) == Substitute(s)
    ensures !EndState(s, false)
    decreases |s|
  {
    if |s| > 0 {
      assert '(' !in s[1..] by {
        assert forall k :: 0 <= k < |s[1..]| ==> s[1..][k] == s[k + 1];
      }
      NoCommentIsSubstitution(s[1..]);
    }
  }

  /** A clean string passes through unchanged. */
  lemma {:induction false} PassThrough(s: string)
    requires Clean(s)
    ensures Process(s) == s
    decreases |s|
  {
    if |s| > 0 {
      assert Clean(s[1..]) by {
        assert forall k :: 0 <= k < |s[1..]| ==> s[1..][k] == s[k + 1];
      }
      PassThrough(s[1..]);
      assert s == [s[0]] + s[1..];
    }
  }

  /** Canonicalising twice is canonicalising once. */
  lemma Idempotent(s: string)
    ensures Process(Process(s)) == Process(s)
  {
    PassThrough(Process(s));
  }

  /** Inside a comment nothing is emitted until the first `)`; a `(` there does not nest. */
  lemma {:induction false} CommentBody(b: string)
    requires ')' !in b
    ensures ProcessFrom(b, true) == ""
    ensures EndState(b, true)
    decreases |b|
  {
    if |b| > 0 {
      assert ')' !in b[1..] by {
        assert forall k :: 0 <= k < |b[1..]| ==> b[1..][k] == b[k + 1];
      }
      CommentBody(b[1..]);
    }
  }

  /**
   * A comment runs from `(` to the first `)` after it, whatever it
   * contains, and is dropped with both parentheses; reading resumes outside
   * any comment.
   */
  lemma CommentDropped(a: string, b: string, c: string)
    requires '(' !in a && ')' !in b
    ensures Process(a + ['('] + b + [')'] + c) == Substitute(a) + Process(c)
  {
    var tail := b + ([')'] + c);
    assert a + ['('] + b + [')'] + c == a + (['('] + tail);
    NoCommentIsSubstitution(a);
    ProcessConcat(a, ['('] + tail, false);
    OpenComment(tail);
    CommentThenRest(b, c);
  }

  /** Reading `(` outside a comment emits nothing and enters one. */
  lemma OpenComment(t: string)
    ensures ProcessFrom(['('] + t, false) == ProcessFrom(t, true)
  {
    BelowGIsNoKey('(');
    assert (['('] + t)[1..] == t;
  }

  /** A comment body and its closing `)` emit nothing; reading resumes outside. */
  lemma CommentThenRest(b: string, c: string)
    requires ')' !in b
    ensures ProcessFrom(b + ([')'] + c), true) == ProcessFrom(c, false)
  {
    CommentBody(b);
    ProcessConcat(b, [')'] + c, true);
    assert ([')'] + c)[1..] == c;
  }

  /** A comment that is never closed swallows the rest of the form. */
  lemma Unclosed(a: string, b: string)
    requires '(' !in a && ')' !in b
    ensures Process(a + ['('] + b) == Substitute(a)
  {
    NoCommentIsSubstitution(a);
    CommentBody(b);
    assert a + ['('] + b == a + (['('] + b);
    ProcessConcat(a, ['('] + b, false);
    OpenComment(b);
    assert Substitute(a) + "" == Substitute(a);
  }

  /** Parentheses do not nest: the inner `)` closes the comment and the outer one is copied. */
  lemma NotNested(s: string)
    requires s == "a(b(c)d)e"
    ensures Process(s) == "ad)e"
  {
    assert s == "a" + ['('] + "b(c" + [')'] + "d)e";
    CommentDropped("a", "b(c", "d)e");
    BelowGIsNoKey('a');
    assert Substitute("a") == "a";
    BelowGIsNoKey('d');
    BelowGIsNoKey(')');
    BelowGIsNoKey('e');
    assert Clean("d)e");
    PassThrough("d)e");
  }

  /** The plain letter g becomes the IPA script g, and an acute a becomes a plus the combining acute. */
  lemma Examples(s: string)
    requires s == "g\U{00E1}"
    ensures Process(s) == "\U{0261}a\U{0301}"
  {
    NoCommentIsSubstitution(s);
  }
}
