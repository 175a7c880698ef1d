/** Bulletin content: access tokens in links are stored as placeholders and filled in again
    when a bulletin is read.  Both regular expressions are modelled as left-to-right scanners. */
module BulletinTokens {

  const PREFIX := "token="
  const PLACEHOLDER := "token={{token}}"

  /** What `[^&"]` excludes. */
  predicate IsDelimiter(c: char) { c == '&' || c == '"' }

  /** The length of the longest run of `[^&"]` at the start. */
  function RunLength(s: string): (n: nat)
    ensures n <= |s|
    ensures forall i :: 0 <= i < n ==> !IsDelimiter(s[i])
    ensures n < |s| ==> IsDelimiter(s[n])
  {
    if s == "" || IsDelimiter(s[0]) then 0 else 1 + RunLength(s[1..])
  }

  /** `/token=[^&"]+/` matches here. */
  predicate HasToken(s: string) {
    PREFIX <= s && |s| > |PREFIX| && !IsDelimiter(s[|PREFIX|])
  }

  /** `content.replace(/token=[^&"]+/g, 'token={{token}}')` */
  function ToPlaceholder(s: string): string
    decreases |s|
  {
    if s == "" then ""
    else if HasToken(s) then PLACEHOLDER + ToPlaceholder(s[|PREFIX| + RunLength(s[|PREFIX|..])..])
    else [s[0]] + ToPlaceholder(s[1..])
  }

  /** A replacement string: `$$`, `$&`, "$`" and `$'` stand for a dollar, the match, and the
      text before and after the match.  Any other `$` stands for itself, as the expression
      has no groups. */
  function Expand(token: string, before: string, after: string): string {
    if token == "" then ""
    else if token[0] == '$' && |token| > 1 && token[1] == '$' then "$" + Expand(token[2..], before, after)
    else if token[0] == '$' && |token| > 1 && token[1] == '&' then PLACEHOLDER + Expand(token[2..], before, after)
    else if token[0] == '$' && |token| > 1 && token[1] == '`' then before + Expand(token[2..], before, after)
    else if token[0] == '$' && |token| > 1 && token[1] == '\'' then after + Expand(token[2..], before, after)
    else [token[0]] + Expand(token[1..], before, after)
  }

  /** The replacement depends on the text around the match. */
  predicate UsesContext(token: string) {
    if token == "" then false
    else if token[0] == '$' && |token| > 1 && token[1] in "$&`'" then token[1] in "`'" || UsesContext(token[2..])
    else UsesContext(token[1..])
  }

  /** The scanner of `content.replace(/token=\{\{token}}/g, 'token=' + token)` when it has got
      past `before`. */
  function Fill(before: string, s: string, token: string): string
    decreases |s|
  {
    if s == "" then ""
    else if PLACEHOLDER <= s then
      var after := s[|PLACEHOLDER|..];
      PREFIX + Expand(token, before, after) + Fill(before + PLACEHOLDER, after, token)
    else [s[0]] + Fill(before + [s[0]], s[1..], token)
  }

  function FillToken(content: string, token: string): string {
    Fill("", content, token)
  }

  /** A token that `[^&"]+` takes whole. */
  predicate Plain(token: string) {
    token != "" && forall i :: 0 <= i < |token| ==> !IsDelimiter(token[i])
  }

  /** Tokens that can be told from the text around them once they are filled in. */
  predicate Recoverable(token: string) {
    !UsesContext(token) && Plain(Expand(token, "", ""))
  }

  /** The text is at an end or at a delimiter. */
  predicate AtDelimiter(s: string) { s == "" || IsDelimiter(s[0]) }

  lemma PrefixHead(s: string)
    requires PREFIX <= s
    ensures s != "" && s[0] == 't'
  {
    assert PREFIX[0] == 't';
  }

  lemma {:induction false} RunIsUnique(run: string, rest: string)
    requires forall i :: 0 <= i < |run| ==> !IsDelimiter(run[i])
    requires AtDelimiter(rest)
    ensures RunLength(run + rest) == |run|
  {
    if run == "" {
      assert run + rest == rest;
    } else {
      assert (run + rest)[1..] == run[1..] + rest;
      RunIsUnique(run[1..], rest);
    }
  }

  /** Both scanners keep the first character, so they keep whether a text is at a delimiter. */
  lemma FirstKept(before: string, s: string, token: string)
    ensures (s == "" <==> ToPlaceholder(s) == "") && (s == "" <==> Fill(before, s, token) == "")
    ensures s != "" ==> ToPlaceholder(s)[0] == s[0] && Fill(before, s, token)[0] == s[0]
  {
    assert PLACEHOLDER[0] == 't' && PREFIX[0] == 't';
    if HasToken(s) {
      PrefixHead(s);
    }
    if PLACEHOLDER <= s {
      assert s[0] == PLACEHOLDER[0];
    }
  }

  /** What both scanners do to a text that does not begin with `t`: the next character is
      copied. */
  lemma CopiesOther(before: string, s: string, token: string)
    requires s != "" && s[0] != 't'
    ensures ToPlaceholder(s) == [s[0]] + ToPlaceholder(s[1..])
    ensures Fill(before, s, token) == [s[0]] + Fill(before + [s[0]], s[1..], token)
  {
    if HasToken(s) {
      PrefixHead(s);
    }
    assert PLACEHOLDER[0] == 't';
  }

  predicate NoT(s: string) { forall i :: 0 <= i < |s| ==> s[i] != 't' }

  /** If an output begins with a text free of `t`, that text was copied from the input. */
  lemma {:induction false} StoredTextCopied(s: string, text: string)
    requires NoT(text) && text <= ToPlaceholder(s)
    ensures text <= s && ToPlaceholder(s)[|text|..] == ToPlaceholder(s[|text|..])
  {
    hide ToPlaceholder, Fill;
    FirstKept("", s, "");
    if text != "" {
      assert text[0] == s[0];
      CopiesOther("", s, "");
      StoredTextCopied(s[1..], text[1..]);
      assert text == [text[0]] + text[1..];
    }
  }

  lemma {:induction false} FilledTextCopied(before: string, s: string, text: string, token: string)
    requires NoT(text) && text <= Fill(before, s, token)
    ensures text <= s && Fill(before, s, token)[|text|..] == Fill(before + text, s[|text|..], token)
    decreases |s|
  {
    hide ToPlaceholder, Fill;
    FirstKept(before, s, token);
    if text == "" {
      assert before + text == before;
    } else {
      assert text[0] == s[0];
      CopiesOther(before, s, token);
      FilledTextCopied(before + [s[0]], s[1..], text[1..], token);
      assert text == [text[0]] + text[1..];
      assert before + [s[0]] + text[1..] == before + text;
    }
  }

  const OKEN := "oken="

  lemma OkenHasNoT()
    ensures NoT(OKEN)
  {
  }

  lemma TokenSplit(c: char, rest: string)
    ensures HasToken([c] + rest) <==>
      c == 't' && OKEN <= rest && |rest| > |OKEN| && !IsDelimiter(rest[|OKEN|])
  {
    assert PREFIX == ['t'] + OKEN;
    var s := [c] + rest;
    if PREFIX <= s {
      assert s[0] == PREFIX[0] && s[1..][..|OKEN|] == PREFIX[1..] == OKEN;
    }
    if c == 't' && OKEN <= rest {
      assert s[..6] == ['t'] + rest[..5];
    }
  }

  /** Neither scanner creates a token in front of what it rewrites: where none begins in the
      input, none begins in the output. */
  lemma NoNewToken(before: string, c: char, rest: string, token: string)
    requires !HasToken([c] + rest)
    ensures !HasToken([c] + ToPlaceholder(rest))
    ensures !HasToken([c] + Fill(before, rest, token))
  {
    OkenHasNoT();
    TokenSplit(c, rest);
    TokenSplit(c, ToPlaceholder(rest));
    TokenSplit(c, Fill(before, rest, token));
    if OKEN <= ToPlaceholder(rest) {
      StoredTextCopied(rest, OKEN);
    }
    if OKEN <= Fill(before, rest, token) {
      FilledTextCopied(before, rest, OKEN, token);
    }
    if OKEN <= rest {
      FirstKept(before + OKEN, rest[|OKEN|..], token);
    }
  }

  lemma BlockIsToken(run: string, rest: string)
    requires Plain(run) && AtDelimiter(rest)
    ensures HasToken(PREFIX + run + rest)
    ensures ToPlaceholder(PREFIX + run + rest) == PLACEHOLDER + ToPlaceholder(rest)
  {
    var s := PREFIX + run + rest;
    assert s[|PREFIX|..] == run + rest;
    assert s[..|PREFIX|] == PREFIX && s[|PREFIX|] == run[0];
    RunIsUnique(run, rest);
    assert s[|PREFIX| + |run|..] == rest;
  }

  /** What a match takes away, and where it stops. */
  lemma TokenEnds(s: string) returns (rest: string)
    requires HasToken(s)
    ensures AtDelimiter(rest) && |rest| < |s|
    ensures ToPlaceholder(s) == PLACEHOLDER + ToPlaceholder(rest)
  {
    rest := s[|PREFIX| + RunLength(s[|PREFIX|..])..];
  }

  lemma PlaceholderSplit()
    ensures PLACEHOLDER == PREFIX + "{{token}}" && Plain("{{token}}")
  {
  }

  /** Storing content twice stores it once. */
  lemma {:induction false} ToPlaceholderIdempotent(s: string)
    ensures ToPlaceholder(ToPlaceholder(s)) == ToPlaceholder(s)
    decreases |s|
  {
    if s != "" {
      if HasToken(s) {
        var rest := TokenEnds(s);
        ToPlaceholderIdempotent(rest);
        FirstKept("", rest, "");
        PlaceholderSplit();
        BlockIsToken("{{token}}", ToPlaceholder(rest));
      } else {
        ToPlaceholderIdempotent(s[1..]);
        assert s == [s[0]] + s[1..];
        NoNewToken("", s[0], s[1..], "");
        assert ([s[0]] + ToPlaceholder(s[1..]))[1..] == ToPlaceholder(s[1..]);
      }
    }
  }

  lemma PlaceholderIsToken(s: string)
    requires PLACEHOLDER <= s
    ensures HasToken(s)
  {
    PlaceholderSplit();
    assert s[..|PREFIX|] == PLACEHOLDER[..|PREFIX|] == PREFIX;
    assert s[|PREFIX|] == PLACEHOLDER[|PREFIX|] == '{';
  }

  lemma {:induction false} ContextFree(token: string, before: string, after: string)
    requires !UsesContext(token)
    ensures Expand(token, before, after) == Expand(token, "", "")
    decreases |token|
  {
    if token != "" {
      if token[0] == '$' && |token| > 1 && token[1] in "$&`'" {
        ContextFree(token[2..], before, after);
      } else {
        ContextFree(token[1..], before, after);
      }
    }
  }

  /** Store, read with a token, store again: the second copy is the first one. */
  lemma {:induction false} RoundTrip(before: string, s: string, token: string)
    requires Recoverable(token)
    ensures ToPlaceholder(Fill(before, ToPlaceholder(s), token)) == ToPlaceholder(s)
    decreases |s|
  {
    if s != "" {
      if HasToken(s) {
        var rest := TokenEnds(s);
        var stored := ToPlaceholder(rest);
        RoundTrip(before + PLACEHOLDER, rest, token);
        assert (PLACEHOLDER + stored)[|PLACEHOLDER|..] == stored;
        ContextFree(token, before, stored);
        FirstKept("", rest, token);
        FirstKept(before + PLACEHOLDER, stored, token);
        BlockIsToken(Expand(token, "", ""), Fill(before + PLACEHOLDER, stored, token));
      } else {
        var stored := ToPlaceholder(s[1..]);
        var past := before + [s[0]];
        RoundTrip(past, s[1..], token);
        assert s == [s[0]] + s[1..];
        NoNewToken("", s[0], s[1..], token);
        if PLACEHOLDER <= [s[0]] + stored {
          PlaceholderIsToken([s[0]] + stored);
        }
        assert ([s[0]] + stored)[1..] == stored;
        NoNewToken(past, s[0], stored, token);
        assert ([s[0]] + Fill(past, stored, token))[1..] == Fill(past, stored, token);
      }
    }
  }

  /** ---- what storing does to the text ---- */

  /** At `i` the text has `token=` and a value that goes on up to the next `&` or `"`. */
  ghost predicate IsAccess(s: string, i: nat, value: string) {
    var end := i + 6 + |value|;
    && end <= |s| && s[i..i + 6] == "token=" && s[i + 6..end] == value
    && value != "" && '&' !in value && '"' !in value
    && (end < |s| ==> s[end] == '&' || s[end] == '"')
  }

  ghost predicate NoAccessBefore(s: string, i: nat) {
    forall j, value :: 0 <= j < i ==> !IsAccess(s, j, value)
  }

  lemma AccessHere(s: string, value: string)
    ensures IsAccess(s, 0, value) <==> HasToken(s) && value == s[|PREFIX|..|PREFIX| + RunLength(s[|PREFIX|..])]
  {
    if IsAccess(s, 0, value) {
      var rest := s[6 + |value|..];
      assert s[6..] == value + rest;
      RunIsUnique(value, rest);
      assert s[6] == value[0];
    }
  }

  lemma AccessFurther(s: string, i: nat, value: string)
    requires s != ""
    ensures IsAccess(s[1..], i, value) <==> IsAccess(s, i + 1, value)
  {
    var end := i + 6 + |value|;
    if end + 1 <= |s| {
      assert s[1..][i..i + 6] == s[i + 1..i + 7];
      assert s[1..][i + 6..end] == s[i + 7..end + 1];
    }
  }

  /** What comes before the first value stays, the placeholder takes the place of the whole
      value, and the rest is dealt with in the same way. */
  lemma {:induction false} StoringReplacesTheFirst(s: string, i: nat, value: string)
    requires IsAccess(s, i, value) && NoAccessBefore(s, i)
    ensures ToPlaceholder(s) == s[..i] + "token={{token}}" + ToPlaceholder(s[i + 6 + |value|..])
    decreases i
  {
    hide ToPlaceholder, HasToken, NoAccessBefore;
    var left := ToPlaceholder(s[i + 6 + |value|..]);
    if i == 0 {
      AccessHere(s, value);
      StoresToken(s);
      assert s[..0] + "token={{token}}" == PLACEHOLDER;
    } else {
      NoAccessHere(s, i);
      StoreCopies(s);
      AccessFurther(s, i - 1, value);
      NoAccessFurther(s, i);
      StoringReplacesTheFirst(s[1..], i - 1, value);
      assert s[1..][i - 1 + 6 + |value|..] == s[i + 6 + |value|..];
      FrontJoins(s, i, "token={{token}}" + left);
      assert s[..i] + ("token={{token}}" + left) == s[..i] + "token={{token}}" + left;
    }
  }

  lemma StoresToken(s: string)
    requires HasToken(s)
    ensures ToPlaceholder(s) == PLACEHOLDER + ToPlaceholder(s[|PREFIX| + RunLength(s[|PREFIX|..])..])
  {
    PrefixHead(s);
  }

  lemma StoreCopies(s: string)
    requires s != "" && !HasToken(s)
    ensures ToPlaceholder(s) == [s[0]] + ToPlaceholder(s[1..])
  {
  }

  lemma FrontJoins(s: string, i: nat, rest: string)
    requires 0 < i <= |s|
    ensures [s[0]] + (s[1..][..i - 1] + rest) == s[..i] + rest
  {
    assert s[..i] == [s[0]] + s[1..][..i - 1];
  }

  lemma NoAccessFurther(s: string, i: nat)
    requires NoAccessBefore(s, i) && 0 < i && s != ""
    ensures NoAccessBefore(s[1..], i - 1)
  {
    forall j, v | 0 <= j < i - 1 ensures !IsAccess(s[1..], j, v) {
      AccessFurther(s, j, v);
    }
  }

  lemma NoAccessHere(s: string, i: nat)
    requires NoAccessBefore(s, i) && 0 < i
    ensures !HasToken(s)
  {
    if HasToken(s) {
      AccessHere(s, s[|PREFIX|..|PREFIX| + RunLength(s[|PREFIX|..])]);
    }
  }

  /** A text without such a value is stored as it is. */
  lemma {:induction false} StoringKeepsOtherText(s: string)
    requires NoAccessBefore(s, |s|)
    ensures ToPlaceholder(s) == s
  {
    if s != "" {
      NoAccessHere(s, |s|);
      NoAccessFurther(s, |s|);
      StoringKeepsOtherText(s[1..]);
    }
  }

  /** ---- what filling in does to the text ---- */

  /** No placeholder begins in the text. */
  ghost predicate HoldsNone(s: string) {
    forall i :: 0 <= i <= |s| ==> !(PLACEHOLDER <= s[i..])
  }

  /** The first placeholder of the text begins at `i`. */
  ghost predicate FirstAt(s: string, i: nat) {
    i <= |s| && PLACEHOLDER <= s[i..] && forall j :: 0 <= j < i ==> !(PLACEHOLDER <= s[j..])
  }

  /** A text without a placeholder is left as it is. */
  lemma {:induction false} FillKeepsOtherText(before: string, s: string, token: string)
    requires HoldsNone(s)
    ensures Fill(before, s, token) == s
    decreases |s|
  {
    if s != "" {
      assert s[0..] == s;
      forall i | 0 <= i <= |s[1..]| ensures !(PLACEHOLDER <= s[1..][i..]) {
        assert s[1..][i..] == s[i + 1..];
      }
      FillKeepsOtherText(before + [s[0]], s[1..], token);
    }
  }

  /** What comes before the first placeholder stays, the token takes its place, its patterns
      looking at the stored text on both sides, and the rest is dealt with in the same way: so
      every placeholder is filled in. */
  lemma {:induction false} FillReplacesTheFirst(before: string, s: string, i: nat, token: string)
    requires FirstAt(s, i)
    ensures var past, after := before + s[..i], s[i + |PLACEHOLDER|..];
      && Fill(before, s, token) == s[..i] + ("token=" + Expand(token, past, after) + Fill(past + "token={{token}}", after, token))
      && ('$' !in token ==> Expand(token, past, after) == token)
    decreases i
  {
    hide Fill, Expand;
    if i == 0 {
      var after := s[|PLACEHOLDER|..];
      assert s[0..] == s && s[..0] == "" && before + "" == before;
      assert s == PLACEHOLDER + after;
      FillBlock(before, after, token);
      if '$' !in token {
        DollarFreeIsLiteral(token);
        ContextFree(token, before, after);
      }
    } else {
      var past := before + [s[0]];
      assert s[0..] == s && s != "";
      FillCopies(before, s, token);
      assert s[1..][i - 1..] == s[i..];
      forall j | 0 <= j < i - 1 ensures !(PLACEHOLDER <= s[1..][j..]) {
        assert s[1..][j..] == s[j + 1..];
      }
      FillReplacesTheFirst(past, s[1..], i - 1, token);
      assert s[..i] == [s[0]] + s[1..][..i - 1];
      assert past + s[1..][..i - 1] == before + s[..i];
      var after := s[i + |PLACEHOLDER|..];
      assert s[1..][i - 1 + |PLACEHOLDER|..] == after;
      FrontJoins(s, i, "token=" + Expand(token, before + s[..i], after) + Fill(before + s[..i] + PLACEHOLDER, after, token));
    }
  }

  lemma FillCopies(before: string, s: string, token: string)
    requires s != "" && !(PLACEHOLDER <= s)
    ensures Fill(before, s, token) == [s[0]] + Fill(before + [s[0]], s[1..], token)
  {
  }

  /** A placeholder is in no text that a delimiter parts. */
  lemma PlaceholderHasNoDelimiter(s: string)
    requires PLACEHOLDER <= s
    ensures forall j :: 0 <= j < |PLACEHOLDER| ==> !IsDelimiter(s[j])
  {
    assert forall j :: 0 <= j < |PLACEHOLDER| ==> s[j] == PLACEHOLDER[j];
    PlaceholderSplit();
    var tail := "{{token}}";
    assert forall j :: |PREFIX| <= j < |PLACEHOLDER| ==> PLACEHOLDER[j] == tail[j - |PREFIX|];
    assert forall j :: 0 <= j < |PREFIX| ==> PLACEHOLDER[j] == PREFIX[j] && !IsDelimiter(PREFIX[j]);
  }

  /** With a text that begins at a delimiter or is empty, no placeholder reaches into it. */
  lemma NoneAcross(a: string, rest: string)
    requires HoldsNone(a) && HoldsNone(rest) && AtDelimiter(rest)
    ensures HoldsNone(a + rest)
  {
    var s := a + rest;
    forall i | 0 <= i <= |s| ensures !(PLACEHOLDER <= s[i..]) {
      if i >= |a| {
        assert s[i..] == rest[i - |a|..];
      } else {
        assert s[i..] == a[i..] + rest;
        NoneInFront(a[i..], rest);
      }
    }
  }

  lemma NoneInFront(a: string, rest: string)
    requires !(PLACEHOLDER <= a) && AtDelimiter(rest)
    ensures !(PLACEHOLDER <= a + rest)
  {
    var s := a + rest;
    if |PLACEHOLDER| <= |a| {
      assert s[..|PLACEHOLDER|] == a[..|PLACEHOLDER|];
    } else if rest != "" {
      assert s[|a|] == rest[0];
      if PLACEHOLDER <= s {
        PlaceholderHasNoDelimiter(s);
      }
    }
  }

  lemma NoneBefore(c: char, rest: string)
    requires HoldsNone(rest) && !(PLACEHOLDER <= [c] + rest)
    ensures HoldsNone([c] + rest)
  {
    var s := [c] + rest;
    forall i | 0 <= i <= |s| ensures !(PLACEHOLDER <= s[i..]) {
      if i == 0 {
        assert s[0..] == s;
      } else {
        assert s[i..] == rest[i - 1..];
      }
    }
  }

  /** In stored content filled in with a plain token without a dollar sign that makes up no
      placeholder itself, no placeholder is left. */
  lemma {:induction false} NoPlaceholderIsLeft(before: string, s: string, token: string)
    requires Plain(token) && '$' !in token && HoldsNone(PREFIX + token)
    ensures HoldsNone(Fill(before, ToPlaceholder(s), token))
    decreases |s|
  {
    if s != "" {
      if HasToken(s) {
        var rest := TokenEnds(s);
        var stored := ToPlaceholder(rest);
        NoPlaceholderIsLeft(before + PLACEHOLDER, rest, token);
        FillBlock(before, stored, token);
        DollarFreeIsLiteral(token);
        ContextFree(token, before, stored);
        FirstKept("", rest, token);
        FirstKept(before + PLACEHOLDER, stored, token);
        NoneAcross(PREFIX + token, Fill(before + PLACEHOLDER, stored, token));
      } else {
        var stored, past := ToPlaceholder(s[1..]), before + [s[0]];
        NoPlaceholderIsLeft(past, s[1..], token);
        assert s == [s[0]] + s[1..];
        NoNewToken("", s[0], s[1..], token);
        NoNewToken(past, s[0], stored, token);
        if PLACEHOLDER <= [s[0]] + stored {
          PlaceholderIsToken([s[0]] + stored);
        }
        assert ([s[0]] + stored)[1..] == stored;
        var filled := Fill(past, stored, token);
        if PLACEHOLDER <= [s[0]] + filled {
          PlaceholderIsToken([s[0]] + filled);
        }
        NoneBefore(s[0], filled);
      }
    }
  }

  /** A pattern in the token stands for a dollar, the placeholder, or the text before or after
      it; what comes before its first dollar sign stays. */
  lemma {:induction false} ExpandsTheFirstPattern(plain: string, c: char, rest: string, before: string, after: string)
    requires '$' !in plain
    ensures var (expanded, left) := (Expand(plain + ['$', c] + rest, before, after), Expand(rest, before, after));
      && (c == '$' ==> expanded == plain + "$" + left)
      && (c == '&' ==> expanded == plain + "token={{token}}" + left)
      && (c == '`' ==> expanded == plain + before + left)
      && (c == '\'' ==> expanded == plain + after + left)
  {
    var token := plain + ['$', c] + rest;
    if plain == "" {
      assert token[2..] == rest;
      assert "" + "$" == "$" && "" + before == before && "" + after == after && "" + PLACEHOLDER == PLACEHOLDER;
    } else {
      hide Expand;
      assert token[0] == plain[0] && token[1..] == plain[1..] + ['$', c] + rest;
      ExpandsTheFirstPattern(plain[1..], c, rest, before, after);
      ExpandCopies(token, before, after);
      var left := Expand(rest, before, after);
      Regroup(plain, "$", left);
      Regroup(plain, "token={{token}}", left);
      Regroup(plain, before, left);
      Regroup(plain, after, left);
    }
  }

  lemma ExpandCopies(token: string, before: string, after: string)
    requires token != "" && token[0] != '$'
    ensures Expand(token, before, after) == [token[0]] + Expand(token[1..], before, after)
  {
  }

  lemma Regroup(front: string, middle: string, rest: string)
    requires front != ""
    ensures [front[0]] + (front[1..] + middle + rest) == front + middle + rest
  {
  }

  /** A token without `$` is filled in as it is. */
  lemma {:induction false} DollarFreeIsLiteral(token: string)
    requires '$' !in token
    ensures !UsesContext(token) && Expand(token, "", "") == token
    ensures Recoverable(token) <==> Plain(token)
  {
    if token != "" {
      assert token[0] in token;
      DollarFreeIsLiteral(token[1..]);
      assert token == [token[0]] + token[1..];
    }
  }

  lemma {:induction false} ContextShows(token: string)
    requires UsesContext(token)
    ensures '&' in Expand(token, "&", "&")
    decreases |token|
  {
    if token[0] == '$' && |token| > 1 && token[1] in "$&`'" {
      if token[1] in "`'" {
        assert Expand(token, "&", "&")[0] == '&';
      } else {
        ContextShows(token[2..]);
      }
    } else {
      ContextShows(token[1..]);
    }
  }

  /** The round trip holds for every content exactly for the recoverable tokens: those that,
      filled in, are not empty, hold neither `&` nor `"`, and quote none of the text around. */
  lemma RoundTripIffRecoverable(token: string)
    ensures Recoverable(token) <==> forall s :: ToPlaceholder(FillToken(ToPlaceholder(s), token)) == ToPlaceholder(s)
  {
    if Recoverable(token) {
      forall s ensures ToPlaceholder(FillToken(ToPlaceholder(s), token)) == ToPlaceholder(s) {
        RoundTrip("", s, token);
      }
    } else {
      NotRecoverable(token);
      assert ToPlaceholder(FillToken(ToPlaceholder("&token=x&"), token)) != ToPlaceholder("&token=x&");
    }
  }

  lemma NotRecoverable(token: string)
    requires !Recoverable(token)
    ensures ToPlaceholder(FillToken(ToPlaceholder("&token=x&"), token)) != ToPlaceholder("&token=x&")
  {
    hide ToPlaceholder, FillToken, Expand;
    var expanded := Expand(token, "&", "&");
    if UsesContext(token) {
      ContextShows(token);
    } else {
      ContextFree(token, "&", "&");
    }
    assert !Plain(expanded);
    CounterexampleStored();
    CounterexampleFilled(token);
    BadTokenChanges(expanded);
    var changed := ToPlaceholder(PREFIX + expanded + "&");
    assert ("&" + changed)[1..] == changed && ("&" + PLACEHOLDER + "&")[1..] == PLACEHOLDER + "&";
  }

  lemma FillBlock(before: string, after: string, token: string)
    ensures Fill(before, PLACEHOLDER + after, token) ==
      PREFIX + Expand(token, before, after) + Fill(before + PLACEHOLDER, after, token)
  {
    assert (PLACEHOLDER + after)[|PLACEHOLDER|..] == after;
  }

  lemma CounterexampleStored()
    ensures ToPlaceholder("&token=x&") == "&" + PLACEHOLDER + "&"
  {
    var s := "&token=x&";
    CopiesOther("", s, "");
    assert s[1..] == PREFIX + "x" + "&";
    BlockIsToken("x", "&");
    CopiesOther("", "&", "");
  }

  lemma CounterexampleFilled(token: string)
    ensures ToPlaceholder(FillToken("&" + PLACEHOLDER + "&", token)) ==
      "&" + ToPlaceholder(PREFIX + Expand(token, "&", "&") + "&")
  {
    var stored := "&" + PLACEHOLDER + "&";
    CopiesOther("", stored, token);
    assert stored[1..] == PLACEHOLDER + "&" && "" + ['&'] == "&";
    FillBlock("&", "&", token);
    CopiesOther("&" + PLACEHOLDER, "&", token);
    var filled := PREFIX + Expand(token, "&", "&") + "&";
    assert FillToken(stored, token) == "&" + filled;
    CopiesOther("", "&" + filled, token);
    assert ("&" + filled)[1..] == filled;
  }

  lemma BadTokenChanges(token: string)
    requires !Plain(token)
    ensures ToPlaceholder(PREFIX + token + "&") != PLACEHOLDER + "&"
  {
    var n := RunLength(token);
    var rest := token[n..] + "&";
    if n == 0 {
      assert PREFIX + token + "&" == ['t'] + (OKEN + rest);
      TokenSplit('t', OKEN + rest);
      OkenCopied(rest);
      assert (['t'] + (OKEN + rest))[1..] == OKEN + rest;
      FirstKept("", rest, "");
      assert ToPlaceholder(PREFIX + token + "&")[6] == rest[0];
      assert (PLACEHOLDER + "&")[6] == '{';
    } else {
      assert PREFIX + token + "&" == PREFIX + token[..n] + rest;
      BlockIsToken(token[..n], rest);
      CopiesOther("", rest, "");
      FirstKept("", rest[1..], "");
    }
  }

  lemma OkenCopied(rest: string)
    ensures ToPlaceholder(OKEN + rest) == OKEN + ToPlaceholder(rest)
  {
    OkenHasNoT();
    LettersCopied(OKEN, rest);
  }

  lemma {:induction false} LettersCopied(text: string, rest: string)
    requires NoT(text)
    ensures ToPlaceholder(text + rest) == text + ToPlaceholder(rest)
    decreases |text|
  {
    hide ToPlaceholder, Fill;
    if text == "" {
      assert text + rest == rest;
    } else {
      CopiesOther("", text + rest, "");
      assert (text + rest)[1..] == text[1..] + rest;
      LettersCopied(text[1..], rest);
      assert [text[0]] + (text[1..] + ToPlaceholder(rest)) == text + ToPlaceholder(rest);
    }
  }

  /** No token survives in stored content: every `token=` in it is followed by the rest of a
      placeholder, by a delimiter, or by nothing. */
  lemma {:induction false} StoredContentHoldsNoToken(s: string, i: nat)
    requires i <= |ToPlaceholder(s)| && HasToken(ToPlaceholder(s)[i..])
    ensures PLACEHOLDER <= ToPlaceholder(s)[i..]
    ensures var after := i + |PLACEHOLDER|; after == |ToPlaceholder(s)| || IsDelimiter(ToPlaceholder(s)[after])
    decreases |s|
  {
    var out := ToPlaceholder(s);
    if s != "" {
      if HasToken(s) {
        var rest := TokenEnds(s);
        var stored := ToPlaceholder(rest);
        FirstKept("", rest, "");
        if i == 0 {
          assert out[..|PLACEHOLDER|] == PLACEHOLDER;
        } else if i < |PLACEHOLDER| {
          InsidePlaceholder(i, stored);
        } else {
          assert out[i..] == stored[i - |PLACEHOLDER|..];
          StoredContentHoldsNoToken(rest, i - |PLACEHOLDER|);
        }
      } else if i == 0 {
        assert s == [s[0]] + s[1..];
        NoNewToken("", s[0], s[1..], "");
      } else {
        assert out[i..] == ToPlaceholder(s[1..])[i - 1..];
        StoredContentHoldsNoToken(s[1..], i - 1);
      }
    }
  }

  /** No token begins inside a placeholder. */
  lemma InsidePlaceholder(i: nat, rest: string)
    requires 0 < i < |PLACEHOLDER| && AtDelimiter(rest)
    ensures !HasToken((PLACEHOLDER + rest)[i..])
  {
    var s := (PLACEHOLDER + rest)[i..];
    assert PREFIX[0] == 't' && PREFIX[5] == '=' && PREFIX[1] == 'o';
    assert s[0] == PLACEHOLDER[i];
    if i == 8 && |s| > 5 {
      assert s[5] == PLACEHOLDER[13] == '}';
    }
  }
}
