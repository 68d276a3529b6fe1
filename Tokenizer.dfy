/**
 * The data-set payload tokenizer: a raw payload such as
 * `:MANUAL a=1 b='x y' c` is split into an optional reset trigger (a `:NAME`
 * word at its head, after any whitespace) and a list of tokens, each an
 * upsert (`key=value`) or a removal (bare `key`).
 *
 * Whitespace runs separate tokens. A value may be quoted with '...', "..."
 * or {...}; the quoted text is kept verbatim (no escapes), the quotes are
 * stripped. A quote that is never closed drops that token and everything
 * after it.
 */
module Tokenizer {
  import opened Wrappers

  /** The characters that separate tokens. */
  predicate IsSpace(c: char) {
    c == ' ' || c == '\t' || c == '\n' || c == '\r'
  }

  /** The characters that open a quoted value. */
  predicate IsOpener(c: char) {
    c == '\'' || c == '"' || c == '{'
  }

  /** The character that closes a quoted value opened by `c`. */
  function Closer(c: char): (r: char)
    requires IsOpener(c)
    ensures r == '}' || r == c
  {
    if c == '{' then '}' else c
  }

  datatype Token = Upsert(key: string, value: string) | Remove(key: string)

  /** What a payload tokenizes to: the reset trigger (the word after a leading `:`), if any, and the tokens. */
  datatype Tokens = Tokens(resetTriggered: Option<string>, tokens: seq<Token>)

  /** Length of the longest prefix of `s` without whitespace and without `=`: the key at the head of `s`. */
  function KeyLength(s: string): (n: nat)
    ensures n <= |s|
  {
    if s == [] || IsSpace(s[0]) || s[0] == '=' then 0 else 1 + KeyLength(s[1..])
  }

  /** Length of the longest prefix of `s` without whitespace: an unquoted value or a trigger name. */
  function WordLength(s: string): (n: nat)
    ensures n <= |s|
  {
    if s == [] || IsSpace(s[0]) then 0 else 1 + WordLength(s[1..])
  }

  /** The first position of `c` in `s`, if there is one. */
  function IndexOf(s: string, c: char): (r: Option<nat>)
    ensures r.Some? ==> r.value < |s|
  {
    if s == [] then None
    else if s[0] == c then Some(0)
    else match IndexOf(s[1..], c)
      case None => None
      case Some(j) => Some(j + 1)
  }

  /**
   * Reads the value that follows a `=`: the value and the number of characters it
   * takes, or None when the value opens a quote that is never closed.
   */
  function ReadValue(s: string): (r: Option<(string, nat)>)
    ensures r.Some? ==> r.value.1 <= |s|
  {
    if s != [] && IsOpener(s[0]) then
      match IndexOf(s[1..], Closer(s[0]))
      case None => None
      case Some(j) => Some((s[1..1 + j], j + 2))
    else
      var n := WordLength(s);
      Some((s[..n], n))
  }

  /**
   * The token at the head of `s` and the number of characters it takes, or None
   * when the head token opens a quote that is never closed.
   */
  function NextToken(s: string): (r: Option<(Token, nat)>)
    requires s != [] && !IsSpace(s[0])
    ensures r.Some? ==> 0 < r.value.1 <= |s|
  {
    var k := KeyLength(s);
    if k < |s| && s[k] == '=' then
      match ReadValue(s[k + 1..])
      case None => None
      case Some((v, n)) => Some((Upsert(s[..k], v), k + 1 + n))
    else
      Some((Remove(s[..k]), k))
  }

  /** Splits the token part of a payload into tokens, left to right; every token takes at least one character. */
  function Lex(s: string): (r: seq<Token>)
    decreases |s|
  {
    if s == [] then []
    else if IsSpace(s[0]) then Lex(s[1..])
    else
      match NextToken(s)
      case None => []
      case Some((t, n)) => [t] + Lex(s[n..])
  }

  /** Length of the run of whitespace at the head of `s`. */
  function SpaceLength(s: string): (n: nat)
    ensures n <= |s|
    ensures forall i :: 0 <= i < n ==> IsSpace(s[i])
    ensures n < |s| ==> !IsSpace(s[n])
  {
    if s == [] || !IsSpace(s[0]) then 0 else 1 + SpaceLength(s[1..])
  }

  /**
   * Tokenizes a whole payload: a `:NAME` word at its head, after any whitespace,
   * is the reset trigger; the rest is lexed. Without a trigger the whole payload
   * is lexed.
   */
  function Tokenize(raw: string): (r: Tokens)
    ensures r.resetTriggered.Some? ==> NoSpace(r.resetTriggered.value)
    ensures r.resetTriggered.None? ==> r.tokens == Lex(raw)
  {
    var w := SpaceLength(raw);
    var s := raw[w..];
    if s != [] && s[0] == ':' then
      WordLengthSpec(s[1..]);
      TokenizeTrimmed(s)
    else
      assert raw == raw[..w] + s;
      LexSpaces(raw[..w], s);
      TokenizeTrimmed(s)
  }

  /** Tokenizes a payload whose leading whitespace is gone: a `:NAME` word at the very head is the reset trigger. */
  function TokenizeTrimmed(s: string): Tokens
  {
    if s != [] && s[0] == ':' then
      var n := WordLength(s[1..]);
      Tokens(Some(s[1..1 + n]), Lex(s[1 + n..]))
    else
      Tokens(None, Lex(s))
  }

  // ----- The rules of the tokenizer, one lemma each -----

  predicate NoSpace(s: string) {
    forall i :: 0 <= i < |s| ==> !IsSpace(s[i])
  }

  /** A key: no whitespace and no `=` (it may be empty only in front of `=`). */
  predicate IsKey(k: string) {
    NoSpace(k) && forall i :: 0 <= i < |k| ==> k[i] != '='
  }

  /** A value that can be written without quotes. */
  predicate IsBareValue(v: string) {
    NoSpace(v) && (v == [] || !IsOpener(v[0]))
  }

  /** True when `s` is empty or starts a new token (begins with whitespace). */
  predicate AtBoundary(s: string) {
    s == [] || IsSpace(s[0])
  }

  /** The key at the head of `s` is the longest prefix without whitespace and `=`. */
  lemma {:induction false} KeyLengthSpec(s: string)
    ensures forall i :: 0 <= i < KeyLength(s) ==> !IsSpace(s[i]) && s[i] != '='
    ensures KeyLength(s) < |s| ==> IsSpace(s[KeyLength(s)]) || s[KeyLength(s)] == '='
  {
    if s != [] && !IsSpace(s[0]) && s[0] != '=' {
      KeyLengthSpec(s[1..]);
    }
  }

  /** An unquoted value is the longest prefix without whitespace. */
  lemma {:induction false} WordLengthSpec(s: string)
    ensures forall i :: 0 <= i < WordLength(s) ==> !IsSpace(s[i])
    ensures WordLength(s) < |s| ==> IsSpace(s[WordLength(s)])
  {
    if s != [] && !IsSpace(s[0]) {
      WordLengthSpec(s[1..]);
    }
  }

  /** IndexOf finds the first occurrence, and finds none only when there is none. */
  lemma {:induction false} IndexOfSpec(s: string, c: char)
    ensures IndexOf(s, c).Some? ==> s[IndexOf(s, c).value] == c
    ensures IndexOf(s, c).Some? ==> forall i :: 0 <= i < IndexOf(s, c).value ==> s[i] != c
    ensures IndexOf(s, c).None? <==> forall i :: 0 <= i < |s| ==> s[i] != c
  {
    if s != [] && s[0] != c {
      IndexOfSpec(s[1..], c);
      if IndexOf(s, c).None? {
        forall i | 0 <= i < |s|
          ensures s[i] != c
        {
          if i > 0 {
            assert s[i] == s[1..][i - 1];
          }
        }
      }
    }
  }

  lemma {:induction false} KeyLengthOf(k: string, s: string)
    requires IsKey(k)
    requires s == [] || IsSpace(s[0]) || s[0] == '='
    ensures KeyLength(k + s) == |k|
  {
    if k == [] {
      assert k + s == s;
    } else {
      var t := k + s;
      assert t[0] == k[0];
      assert t[1..] == k[1..] + s;
      KeyLengthOf(k[1..], s);
    }
  }

  lemma {:induction false} WordLengthOf(w: string, s: string)
    requires NoSpace(w)
    requires AtBoundary(s)
    ensures WordLength(w + s) == |w|
  {
    if w == [] {
      assert w + s == s;
    } else {
      var t := w + s;
      assert t[0] == w[0];
      assert t[1..] == w[1..] + s;
      WordLengthOf(w[1..], s);
    }
  }

  lemma {:induction false} IndexOfFirst(v: string, c: char, s: string)
    requires forall i :: 0 <= i < |v| ==> v[i] != c
    ensures IndexOf(v + [c] + s, c) == Some(|v|)
  {
    var t := v + [c] + s;
    if v == [] {
      assert t[0] == c;
    } else {
      assert t[0] == v[0];
      assert t[1..] == v[1..] + [c] + s;
      IndexOfFirst(v[1..], c, s);
    }
  }

  lemma {:induction false} IndexOfAbsent(v: string, c: char)
    requires forall i :: 0 <= i < |v| ==> v[i] != c
    ensures IndexOf(v, c) == None
  {
    if v != [] {
      assert v[0] != c;
      IndexOfAbsent(v[1..], c);
    }
  }

  /** Whitespace between tokens is ignored, however long the run. */
  lemma {:induction false} LexSpaces(w: string, s: string)
    requires forall i :: 0 <= i < |w| ==> IsSpace(w[i])
    ensures Lex(w + s) == Lex(s)
  {
    if w != [] {
      var t := w + s;
      assert t[0] == w[0] && IsSpace(t[0]);
      assert t[1..] == w[1..] + s;
      assert Lex(t) == Lex(t[1..]);
      LexSpaces(w[1..], s);
    } else {
      assert w + s == s;
    }
  }

  /** One step of the lexer: a head token that takes `n` characters is followed by the lexing of the rest. */
  lemma LexStep(t: string, tok: Token, n: nat)
    requires t != [] && !IsSpace(t[0])
    requires NextToken(t) == Some((tok, n))
    ensures Lex(t) == [tok] + Lex(t[n..])
  {
  }

  /** The head of a string that starts with a key (possibly empty) and `=` is not whitespace. */
  lemma KeyHead(k: string, s: string)
    requires IsKey(k)
    requires s != [] && s[0] == '='
    ensures k + s != [] && !IsSpace((k + s)[0])
  {
    if k == [] {
      assert (k + s)[0] == s[0];
    } else {
      assert (k + s)[0] == k[0];
    }
  }

  lemma {:induction false} NextRemove(k: string, s: string, t: string)
    requires IsKey(k) && k != []
    requires AtBoundary(s)
    requires t == k + s
    ensures t != [] && !IsSpace(t[0]) && NextToken(t) == Some((Remove(k), |k|))
    ensures t[|k|..] == s
  {
    KeyLengthOf(k, s);
    assert t[0] == k[0];
    assert t[..|k|] == k;
    assert s != [] ==> t[|k|] == s[0];
  }

  lemma ReadBare(v: string, s: string, r: string)
    requires IsBareValue(v) && AtBoundary(s)
    requires r == v + s
    ensures ReadValue(r) == Some((v, |v|))
  {
    WordLengthOf(v, s);
    assert r[..|v|] == v;
    if v == [] {
      assert r == s;
    } else {
      assert r[0] == v[0];
    }
  }

  lemma ReadQuoted(q: char, v: string, w: string, s: string, r: string)
    requires IsOpener(q)
    requires forall i :: 0 <= i < |v| ==> v[i] != Closer(q)
    requires w == [q] + v + [Closer(q)]
    requires r == w + s
    ensures ReadValue(r) == Some((v, |v| + 2))
  {
    assert r == [q] + (v + [Closer(q)] + s);
    assert r[0] == q;
    assert r[1..] == v + [Closer(q)] + s;
    IndexOfFirst(v, Closer(q), s);
    assert r[1..1 + |v|] == v;
  }

  /** The head of `k + "=" + rest` is the key `k` followed by `=`. */
  lemma KeyThenEquals(k: string, rest: string, t: string)
    requires IsKey(k)
    requires t == k + ['='] + rest
    ensures t != [] && !IsSpace(t[0])
    ensures KeyLength(t) == |k| && |k| < |t| && t[|k|] == '='
    ensures t[..|k|] == k && t[|k| + 1..] == rest
  {
    assert t == k + (['='] + rest);
    KeyLengthOf(k, ['='] + rest);
    KeyHead(k, ['='] + rest);
  }

  lemma {:induction false} NextBare(k: string, v: string, s: string, t: string)
    requires IsKey(k) && IsBareValue(v)
    requires AtBoundary(s)
    requires t == k + ['='] + v + s
    ensures t != [] && !IsSpace(t[0]) && NextToken(t) == Some((Upsert(k, v), |k| + 1 + |v|))
    ensures t[|k| + 1 + |v|..] == s
  {
    var r := v + s;
    assert t == k + ['='] + r;
    KeyThenEquals(k, r, t);
    ReadBare(v, s, r);
    assert r[|v|..] == s;
    assert t[|k| + 1 + |v|..] == r[|v|..];
  }

  lemma {:induction false} NextQuoted(k: string, q: char, v: string, w: string, s: string, t: string)
    requires IsKey(k) && IsOpener(q)
    requires forall i :: 0 <= i < |v| ==> v[i] != Closer(q)
    requires w == [q] + v + [Closer(q)]
    requires t == k + ['='] + w + s
    ensures t != [] && !IsSpace(t[0]) && NextToken(t) == Some((Upsert(k, v), |k| + 3 + |v|))
    ensures t[|k| + 3 + |v|..] == s
  {
    var r := w + s;
    assert t == k + ['='] + r;
    KeyThenEquals(k, r, t);
    ReadQuoted(q, v, w, s, r);
    assert r[|w|..] == s;
    assert t[|k| + 1 + |w|..] == r[|w|..];
  }

  lemma {:induction false} NextUnterminated(k: string, q: char, v: string, w: string, t: string)
    requires IsKey(k) && IsOpener(q)
    requires forall i :: 0 <= i < |v| ==> v[i] != Closer(q)
    requires w == [q] + v
    requires t == k + ['='] + w
    ensures t != [] && !IsSpace(t[0]) && NextToken(t) == None
  {
    KeyThenEquals(k, w, t);
    var r := t[|k| + 1..];
    assert r[1..] == v;
    IndexOfAbsent(v, Closer(q));
    assert ReadValue(r) == None;
  }

  /** A bare key is a removal token. */
  lemma LexRemove(k: string, s: string, t: string)
    requires IsKey(k) && k != []
    requires AtBoundary(s)
    requires t == k + s
    ensures Lex(t) == [Remove(k)] + Lex(s)
  {
    NextRemove(k, s, t);
    LexStep(t, Remove(k), |k|);
  }

  /** `key=value` with an unquoted value is an upsert; the value ends at the next whitespace. */
  lemma LexBare(k: string, v: string, s: string, t: string)
    requires IsKey(k) && IsBareValue(v)
    requires AtBoundary(s)
    requires t == k + ['='] + v + s
    ensures Lex(t) == [Upsert(k, v)] + Lex(s)
  {
    NextBare(k, v, s, t);
    LexStep(t, Upsert(k, v), |k| + 1 + |v|);
  }

  /** `key=` followed by a closed quote is an upsert of the quoted text, quotes stripped. */
  lemma LexQuoted(k: string, q: char, v: string, w: string, s: string, t: string)
    requires IsKey(k) && IsOpener(q)
    requires forall i :: 0 <= i < |v| ==> v[i] != Closer(q)
    requires w == [q] + v + [Closer(q)]
    requires t == k + ['='] + w + s
    ensures Lex(t) == [Upsert(k, v)] + Lex(s)
  {
    NextQuoted(k, q, v, w, s, t);
    LexStep(t, Upsert(k, v), |k| + 3 + |v|);
  }

  /** A quote that is never closed drops its token and all of the input after it. */
  lemma LexUnterminated(k: string, q: char, v: string, w: string, t: string)
    requires IsKey(k) && IsOpener(q)
    requires forall i :: 0 <= i < |v| ==> v[i] != Closer(q)
    requires w == [q] + v
    requires t == k + ['='] + w
    ensures Lex(t) == []
  {
    NextUnterminated(k, q, v, w, t);
  }

  /** Garbage with no `=` and no whitespace is a single bare-key token. */
  lemma LexGarbage(g: string)
    requires g != [] && IsKey(g)
    ensures Lex(g) == [Remove(g)]
  {
    LexRemove(g, [], g + []);
    assert g + [] == g;
  }

  // ----- Writing tokens back out: the inverse of the tokenizer -----

  /** A value is written bare when it can be, otherwise in the first quote style whose closer it does not contain. */
  function RenderValue(v: string): string
  {
    if IsBareValue(v) then v
    else if '}' !in v then ['{'] + v + ['}']
    else if '\'' !in v then ['\''] + v + ['\'']
    else ['"'] + v + ['"']
  }

  /** A token the tokenizer can read back: a proper key, and a value that some quote style can hold. */
  predicate Writable(t: Token)
  {
    match t
    case Upsert(k, v) => IsKey(k) && (IsBareValue(v) || '}' !in v || '\'' !in v || '"' !in v)
    case Remove(k) => IsKey(k) && k != []
  }

  function RenderToken(t: Token): string
  {
    match t
    case Upsert(k, v) => k + ['='] + RenderValue(v)
    case Remove(k) => k
  }

  /** The tokens separated by single spaces. */
  function Render(ts: seq<Token>): string
  {
    if ts == [] then []
    else if |ts| == 1 then RenderToken(ts[0])
    else RenderToken(ts[0]) + [' '] + Render(ts[1..])
  }

  /** A payload the tokenizer can read back: a trigger name without whitespace and writable tokens; without a trigger the first key must not start with `:`. */
  predicate WritablePayload(p: Tokens)
  {
    && (forall i :: 0 <= i < |p.tokens| ==> Writable(p.tokens[i]))
    && (p.resetTriggered.Some? ==> NoSpace(p.resetTriggered.value))
    && (p.resetTriggered.None? && p.tokens != [] ==> p.tokens[0].key == [] || p.tokens[0].key[0] != ':')
  }

  function RenderPayload(p: Tokens): string
  {
    match p.resetTriggered
    case None => Render(p.tokens)
    case Some(name) => [':'] + name + (if p.tokens == [] then [] else [' '] + Render(p.tokens))
  }

  lemma LexTokenUpsert(k: string, v: string, s: string, u: string)
    requires Writable(Upsert(k, v)) && AtBoundary(s)
    requires u == k + ['='] + RenderValue(v) + s
    ensures Lex(u) == [Upsert(k, v)] + Lex(s)
  {
    var w := RenderValue(v);
    if IsBareValue(v) {
      LexBare(k, v, s, u);
    } else if '}' !in v {
      LexQuoted(k, '{', v, w, s, u);
    } else if '\'' !in v {
      LexQuoted(k, '\'', v, w, s, u);
    } else {
      LexQuoted(k, '"', v, w, s, u);
    }
  }

  lemma LexToken(t: Token, s: string)
    requires Writable(t) && AtBoundary(s)
    ensures Lex(RenderToken(t) + s) == [t] + Lex(s)
  {
    match t
    case Remove(k) =>
      LexRemove(k, s, RenderToken(t) + s);
    case Upsert(k, v) =>
      LexTokenUpsert(k, v, s, RenderToken(t) + s);
  }

  /** Writing tokens out and tokenizing the text gives the same tokens back. */
  lemma {:induction false} LexRender(ts: seq<Token>)
    requires forall i :: 0 <= i < |ts| ==> Writable(ts[i])
    ensures Lex(Render(ts)) == ts
  {
    if ts == [] {
    } else if |ts| == 1 {
      LexToken(ts[0], []);
      assert RenderToken(ts[0]) + [] == Render(ts);
    } else {
      var rest := [' '] + Render(ts[1..]);
      LexToken(ts[0], rest);
      assert Render(ts) == RenderToken(ts[0]) + rest;
      LexSpaces([' '], Render(ts[1..]));
      LexRender(ts[1..]);
      assert ts == [ts[0]] + ts[1..];
    }
  }

  /** The first character of a written token is the first character of its key, or `=` for an empty key. */
  lemma RenderHead(ts: seq<Token>)
    requires ts != [] && Writable(ts[0])
    requires ts[0].key == [] || ts[0].key[0] != ':'
    ensures Render(ts) != [] && Render(ts)[0] != ':' && !IsSpace(Render(ts)[0])
  {
    var r := RenderToken(ts[0]);
    if ts[0].key == [] {
      assert ts[0].Upsert? && r[0] == '=';
    } else {
      assert r[0] == ts[0].key[0];
    }
    if |ts| > 1 {
      assert Render(ts) == r + [' '] + Render(ts[1..]);
    }
  }

  /** A payload that starts with `:` and a word has that word as its reset trigger. */
  lemma TokenizeHead(name: string, tail: string, raw: string)
    requires NoSpace(name) && AtBoundary(tail)
    requires raw == [':'] + name + tail
    ensures Tokenize(raw) == Tokens(Some(name), Lex(tail))
  {
    assert raw[0..] == raw;
    var rest := name + tail;
    assert raw == [':'] + rest;
    assert raw[0] == ':' && raw[1..] == rest;
    WordLengthOf(name, tail);
    assert rest[..|name|] == name && rest[|name|..] == tail;
  }

  lemma TokenizeTriggered(name: string, ts: seq<Token>, raw: string)
    requires NoSpace(name)
    requires Lex(Render(ts)) == ts
    requires raw == [':'] + name + (if ts == [] then [] else [' '] + Render(ts))
    ensures Tokenize(raw) == Tokens(Some(name), ts)
  {
    var tail := if ts == [] then [] else [' '] + Render(ts);
    TokenizeHead(name, tail, raw);
    if ts != [] {
      LexSpaces([' '], Render(ts));
    }
  }

  /** Writing a payload out and tokenizing it gives back its reset trigger and its tokens. */
  lemma TokenizeRender(p: Tokens)
    requires WritablePayload(p)
    ensures Tokenize(RenderPayload(p)) == p
  {
    LexRender(p.tokens);
    match p.resetTriggered
    case None =>
      if p.tokens != [] {
        RenderHead(p.tokens);
      }
    case Some(name) =>
      TokenizeTriggered(name, p.tokens, RenderPayload(p));
  }

  lemma {:induction false} SpaceLengthOf(w: string, s: string)
    requires forall i :: 0 <= i < |w| ==> IsSpace(w[i])
    ensures SpaceLength(w + s) == |w| + SpaceLength(s)
  {
    if w == [] {
      assert w + s == s;
    } else {
      var t := w + s;
      assert t[0] == w[0];
      assert t[1..] == w[1..] + s;
      SpaceLengthOf(w[1..], s);
    }
  }

  /** Whitespace in front of a payload changes nothing: a reset trigger may follow it. */
  lemma TokenizeLeadingSpace(w: string, s: string)
    requires forall i :: 0 <= i < |w| ==> IsSpace(w[i])
    ensures Tokenize(w + s) == Tokenize(s)
  {
    SpaceLengthOf(w, s);
    var t := w + s;
    assert t[SpaceLength(t)..] == s[SpaceLength(s)..];
    assert Tokenize(t) == TokenizeTrimmed(t[SpaceLength(t)..]);
  }
}
