/** The log redactor: every configured secret found in a text is replaced by a fixed mark. */
module Redaction {
  import opened Prelude

  const MARK := "[redacted]"
  const WORD := "redacted"
  const MIN_LENGTH: nat := 6

  predicate At(text: string, i: int, part: string) {
    0 <= i <= |text| - |part| && text[i..i + |part|] == part
  }

  ghost predicate Contains(text: string, part: string) { exists i :: At(text, i, part) }

  /** `includes`. */
  predicate Includes(text: string, part: string) {
    part <= text || (text != "" && Includes(text[1..], part))
  }

  /** `split(part).join(MARK)`: every occurrence, from the left, none overlapping another. The empty
      part splits a text into its characters. */
  function SplitJoin(text: string, part: string): string
    decreases |text|
  {
    if part == "" then
      if |text| <= 1 then text else [text[0]] + MARK + SplitJoin(text[1..], part)
    else if part <= text then MARK + SplitJoin(text[|part|..], part)
    else if text == "" then ""
    else [text[0]] + SplitJoin(text[1..], part)
  }

  function RedactOne(text: string, secret: string): string {
    if Includes(text, secret) then SplitJoin(text, secret) else text
  }

  function RedactAll(text: string, secrets: seq<string>): string
    decreases |secrets|
  {
    if secrets == [] then text
    else RedactOne(RedactAll(text, secrets[..|secrets| - 1]), secrets[|secrets| - 1])
  }

  /** The function `createRedactor` returns. */
  method Redact(text: string, secrets: seq<string>) returns (out: string)
    ensures out == RedactAll(text, secrets)
    ensures Cleanable(secrets) ==> forall s :: s in secrets ==> !Contains(out, s)
    ensures (forall s :: s in secrets ==> !Contains(text, s)) ==> out == text
  {
    out := text;
    for i := 0 to |secrets|
      invariant out == RedactAll(text, secrets[..i])
    {
      assert secrets[..i + 1][..i] == secrets[..i];
      if Includes(out, secrets[i]) { out := SplitJoin(out, secrets[i]); }
    }
    assert secrets[..|secrets|] == secrets;
    if Cleanable(secrets) { OutputIsClean(text, secrets); }
    if forall s :: s in secrets ==> !Contains(text, s) { CleanTextUnchanged(text, secrets); }
  }

  // ------------------------------------------------------------ one secret

  predicate Plain(s: string) { s != "" && forall i :: 0 <= i < |s| ==> s[i] != '[' && s[i] != ']' }

  /** Neither inside the mark nor around it, and no end of one is a beginning of the other. */
  ghost predicate NoOverlap(s: string) {
    && s != "" && !Contains(MARK, s)
    && !BeginsWithMarkEnd(s)
    && (forall n :: 0 < n < |s| ==> !MeetsMark(s[n..]))
  }

  /** A proper beginning of the secret is an end of the mark. */
  ghost predicate BeginsWithMarkEnd(s: string) {
    exists k :: 0 < k <= |MARK| && k < |s| && s[..k] == MARK[|MARK| - k..]
  }

  /** Laid on the start of a mark and what follows it, this text could be read there. */
  predicate MeetsMark(tail: string) { tail <= MARK || MARK <= tail }

  /** Secrets the mark cannot help to reproduce. */
  ghost predicate Cleanable(secrets: seq<string>) { forall s :: s in secrets ==> NoOverlap(s) }

  lemma {:induction false} IncludesIsContains(text: string, part: string)
    ensures Includes(text, part) <==> Contains(text, part)
    decreases |text|
  {
    if text == "" {
      assert At(text, 0, part) <==> part <= text;
    } else {
      IncludesIsContains(text[1..], part);
      ContainsTail(text, part);
    }
  }

  /** An occurrence is at the front, or in the rest. */
  lemma ContainsTail(text: string, part: string)
    requires text != ""
    ensures Contains(text, part) <==> part <= text || Contains(text[1..], part)
  {
    var rest := text[1..];
    assert At(text, 0, part) <==> part <= text;
    if Contains(text, part) {
      var i :| At(text, i, part);
      if i > 0 { assert At(rest, i - 1, part); }
    }
    if Contains(rest, part) {
      var i :| At(rest, i, part);
      assert At(text, i + 1, part);
    }
  }

  lemma FrontOfMark(tail: string, rest: string)
    requires tail <= MARK + rest
    ensures MeetsMark(tail)
  {
    if |tail| <= |MARK| { assert tail == (MARK + rest)[..|tail|] == MARK[..|tail|]; }
    else { assert MARK == (MARK + rest)[..|MARK|] == tail[..|MARK|]; }
  }

  /** The tail of a secret that does not overlap the mark, at the front of the output, was at the front
      of the input. */
  lemma {:induction false} TailIsOld(text: string, secret: string, s: string, n: nat)
    requires secret != "" && NoOverlap(s) && 0 < n <= |s| && s[n..] <= SplitJoin(text, secret)
    ensures s[n..] <= text
    decreases |text|
  {
    if n < |s| {
      if secret <= text {
        SplitJoinReplaces(text, secret);
        hide SplitJoin;
        FrontOfMark(s[n..], SplitJoin(text[|secret|..], secret));
      } else if text != "" {
        SplitJoinCopies(text, secret);
        hide SplitJoin;
        hide NoOverlap;
        TailBehind(s, n, text[0], SplitJoin(text[1..], secret));
        TailIsOld(text[1..], secret, s, n + 1);
        TailBefore(s, n, text);
      }
    }
  }

  lemma TailBehind(s: string, n: nat, c: char, out: string)
    requires n < |s| && s[n..] <= [c] + out
    ensures s[n] == c && s[n + 1..] <= out
  {
    assert s[n..] == [s[n]] + s[n + 1..];
    assert ([c] + out)[0] == c && ([c] + out)[1..] == out;
  }

  lemma TailBefore(s: string, n: nat, text: string)
    requires n < |s| && text != "" && s[n] == text[0] && s[n + 1..] <= text[1..]
    ensures s[n..] <= text
  {
    assert s[n..] == [s[n]] + s[n + 1..] && text == [text[0]] + text[1..];
  }

  /** And so was all of it. */
  lemma FrontIsOld(text: string, secret: string, s: string)
    requires secret != "" && NoOverlap(s) && !(secret <= text) && s <= SplitJoin(text, secret)
    ensures s <= text
  {
    var out := SplitJoin(text, secret);
    assert s[0] == out[0];
    assert s[1..] <= out[1..] && out[1..] == SplitJoin(text[1..], secret);
    TailIsOld(text[1..], secret, s, 1);
    assert s == [s[0]] + s[1..] && text == [text[0]] + text[1..];
  }

  /** A window of a text without brackets holds no bracket. */
  lemma WindowIsPlain(text: string, i: int, part: string, k: int)
    requires At(text, i, part) && Plain(part) && i <= k < i + |part|
    ensures text[k] != '[' && text[k] != ']'
  {
    assert part[k - i] == text[k];
  }

  /** Where an occurrence in a mark and what follows it can be: inside the mark, across its end, or after it. */
  lemma WhereInMark(s: string, rest: string, i: int)
    requires s != "" && At(MARK + rest, i, s)
    ensures Contains(MARK, s) || BeginsWithMarkEnd(s) || Contains(rest, s)
  {
    var all := MARK + rest;
    if i >= |MARK| {
      assert rest[i - |MARK|..i - |MARK| + |s|] == all[i..i + |s|];
      assert At(rest, i - |MARK|, s);
    } else if i + |s| <= |MARK| {
      assert MARK[i..i + |s|] == all[i..i + |s|];
      assert At(MARK, i, s);
    } else {
      var k := |MARK| - i;
      assert s[..k] == all[i..|MARK|] == MARK[|MARK| - k..];
    }
  }

  /** A secret that does not overlap the mark is not read across it. */
  lemma MarkHolds(s: string, rest: string)
    requires NoOverlap(s) && Contains(MARK + rest, s)
    ensures Contains(rest, s)
  {
    var i :| At(MARK + rest, i, s);
    WhereInMark(s, rest, i);
  }

  lemma WordHolds(all: string, i: int, part: string)
    requires 1 <= i && i + |part| <= 9 <= |all| && At(all, i, part) && all[1..9] == WORD
    ensures Contains(WORD, part)
  {
    var word := all[1..9];
    assert forall k :: 0 <= k < |part| ==> word[i - 1 + k] == all[i + k] == part[k];
    assert word[i - 1..i - 1 + |part|] == part;
    assert At(WORD, i - 1, part);
  }

  /** Replacing one secret leaves no occurrence of it, and makes none of another. */
  lemma {:induction false} SplitJoinBringsNothing(text: string, secret: string, part: string)
    requires secret != "" && NoOverlap(part) && Contains(SplitJoin(text, secret), part)
    ensures Contains(text, part) && part != secret
    decreases |text|
  {
    var out := SplitJoin(text, secret);
    if secret <= text {
      MarkHolds(part, SplitJoin(text[|secret|..], secret));
      SplitJoinBringsNothing(text[|secret|..], secret, part);
      ContainsLater(text, |secret|, part);
    } else if text != "" {
      assert out[1..] == SplitJoin(text[1..], secret);
      ContainsTail(out, part);
      ContainsTail(text, part);
      if part <= out { FrontIsOld(text, secret, part); }
      else { SplitJoinBringsNothing(text[1..], secret, part); }
    }
  }

  lemma ContainsLater(text: string, n: nat, part: string)
    requires n <= |text| && Contains(text[n..], part)
    ensures Contains(text, part)
  {
    var i :| At(text[n..], i, part);
    assert text[n..][i..i + |part|] == text[n + i..n + i + |part|];
    assert At(text, n + i, part);
  }

  // ------------------------------------------------------------ all of them

  lemma {:induction false} OutputIsCleanOf(text: string, secrets: seq<string>, s: string)
    requires Cleanable(secrets) && s in secrets
    ensures !Contains(RedactAll(text, secrets), s)
    decreases |secrets|
  {
    var n := |secrets| - 1;
    var before := RedactAll(text, secrets[..n]);
    IncludesIsContains(before, secrets[n]);
    assert secrets[n] in secrets;
    if s in secrets[..n] { OutputIsCleanOf(text, secrets[..n], s); }
    else { assert s == secrets[n]; }
    if Contains(RedactAll(text, secrets), s) && Includes(before, secrets[n]) {
      SplitJoinBringsNothing(before, secrets[n], s);
    }
  }

  /** No secret is left in the output, for any text and any number of secrets in any order. */
  lemma OutputIsClean(text: string, secrets: seq<string>)
    requires Cleanable(secrets)
    ensures forall s :: s in secrets ==> !Contains(RedactAll(text, secrets), s)
  {
    forall s | s in secrets ensures !Contains(RedactAll(text, secrets), s) { OutputIsCleanOf(text, secrets, s); }
  }

  lemma {:induction false} CleanTextUnchanged(text: string, secrets: seq<string>)
    requires forall s :: s in secrets ==> !Contains(text, s)
    ensures RedactAll(text, secrets) == text
    decreases |secrets|
  {
    if secrets != [] {
      var n := |secrets| - 1;
      CleanTextUnchanged(text, secrets[..n]);
      IncludesIsContains(text, secrets[n]);
      assert secrets[n] in secrets;
    }
  }

  /** Redacting a second time changes nothing. */
  lemma {:induction false} RedactTwiceIsOnce(text: string, secrets: seq<string>)
    requires Cleanable(secrets)
    ensures RedactAll(RedactAll(text, secrets), secrets) == RedactAll(text, secrets)
  {
    OutputIsClean(text, secrets);
    CleanTextUnchanged(RedactAll(text, secrets), secrets);
  }

  // ------------------------------------------------------------ the condition is exact

  /** A mark survives the replacement of a plain secret that is no part of its word. */
  lemma {:induction false} MarkIsCopied(n: nat, rest: string, secret: string)
    requires n <= |MARK| && Plain(secret) && !Contains(WORD, secret)
    ensures SplitJoin(MARK[n..] + rest, secret) == MARK[n..] + SplitJoin(rest, secret)
    decreases |MARK| - n
  {
    var word := MARK[n..];
    if n == |MARK| {
      assert word == "" && word + rest == rest && word + SplitJoin(rest, secret) == SplitJoin(rest, secret);
    } else {
      var more := MARK[n + 1..];
      MarkIsCopied(n + 1, rest, secret);
      if secret <= word + rest { NoMatchInMark(n, rest, secret); }
      assert word == [word[0]] + more;
      hide SplitJoin;
      ConsAppend(word[0], more, rest);
      ConsAppend(word[0], more, SplitJoin(rest, secret));
      assert (word + rest)[0] == word[0] && (word + rest)[1..] == more + rest;
      SplitJoinCopies(word + rest, secret);
    }
  }

  lemma SplitJoinCopies(text: string, secret: string)
    requires secret != "" && text != "" && !(secret <= text)
    ensures SplitJoin(text, secret) == [text[0]] + SplitJoin(text[1..], secret)
  {
  }

  lemma SplitJoinReplaces(text: string, secret: string)
    requires secret != "" && secret <= text
    ensures SplitJoin(text, secret) == MARK + SplitJoin(text[|secret|..], secret)
  {
  }

  lemma ConsAppend(c: char, a: string, b: string)
    ensures ([c] + a) + b == [c] + (a + b)
  {
  }

  lemma NoMatchInMark(n: nat, rest: string, secret: string)
    requires n < |MARK| && Plain(secret) && secret <= MARK[n..] + rest
    ensures Contains(WORD, secret)
  {
    var all := MARK + rest;
    assert all[n..n + |secret|] == secret;
    assert At(all, n, secret);
    assert all[0] == '[' && all[9] == ']';
    if n == 0 { WindowIsPlain(all, n, secret, 0); }
    if n <= 9 < n + |secret| { WindowIsPlain(all, n, secret, 9); }
    WordHolds(all, n, secret);
  }

  lemma PlainFrontEndsBefore(text: string, part: string, k: nat)
    requires Plain(part) && part <= text && k < |text| && text[k] == '['
    ensures |part| <= k
  {
  }

  /** Replacing a plain secret leaves a mark in a text that holds one. */
  lemma {:induction false} MarkStays(before: string, rest: string, secret: string)
    requires Plain(secret) && !Contains(WORD, secret)
    ensures Contains(SplitJoin(before + MARK + rest, secret), MARK)
    decreases |before|
  {
    var text := before + MARK + rest;
    var out := SplitJoin(text, secret);
    assert text[|before|] == MARK[0];
    if secret <= text { PlainFrontEndsBefore(text, secret, |before|); }
    if secret <= text && |secret| <= |before| {
      assert text[|secret|..] == before[|secret|..] + MARK + rest;
      assert At(out, 0, MARK);
    } else if before == "" {
      assert text == MARK[0..] + rest;
      MarkIsCopied(0, rest, secret);
      assert At(out, 0, MARK);
    } else {
      assert text[1..] == before[1..] + MARK + rest;
      MarkStays(before[1..], rest, secret);
      assert out == [text[0]] + SplitJoin(text[1..], secret);
      assert out[1..] == SplitJoin(text[1..], secret);
      ContainsTail(out, MARK);
    }
  }

  /** Replacing a secret that occurs writes a mark. */
  lemma {:induction false} ReplacingMarks(text: string, secret: string)
    requires secret != "" && Contains(text, secret)
    ensures Contains(SplitJoin(text, secret), MARK)
    decreases |text|
  {
    var out := SplitJoin(text, secret);
    if secret <= text {
      assert At(out, 0, MARK);
    } else {
      assert text != "" by { var i :| At(text, i, secret); }
      ContainsTail(text, secret);
      ReplacingMarks(text[1..], secret);
      assert out[1..] == SplitJoin(text[1..], secret);
      ContainsTail(out, MARK);
    }
  }

  lemma ContainsTrans(text: string, part: string, piece: string)
    requires Contains(text, part) && Contains(part, piece)
    ensures Contains(text, piece)
  {
    var i :| At(text, i, part);
    var j :| At(part, j, piece);
    assert forall k :: 0 <= k < |piece| ==> text[i + (j + k)] == part[j + k] == piece[k];
    assert text[i + j..i + j + |piece|] == piece;
    assert At(text, i + j, piece);
  }

  lemma WordInMark()
    ensures Contains(MARK, WORD)
  {
    assert MARK[1..9] == WORD;
    assert At(MARK, 1, WORD);
  }

  lemma {:induction false} MarkForever(secrets: seq<string>)
    requires forall s :: s in secrets ==> Plain(s)
    ensures Contains(RedactAll(MARK, secrets), MARK)
    decreases |secrets|
  {
    if secrets == [] { assert At(MARK, 0, MARK); }
    else {
      var n := |secrets| - 1;
      var before, last := RedactAll(MARK, secrets[..n]), secrets[n];
      assert last in secrets;
      MarkForever(secrets[..n]);
      if Contains(WORD, last) {
        WordInMark();
        ContainsTrans(MARK, WORD, last);
        ContainsTrans(before, MARK, last);
        IncludesIsContains(before, last);
        ReplacingMarks(before, last);
      } else {
        var i :| At(before, i, MARK);
        assert before == before[..i] + MARK + before[i + |MARK|..];
        MarkStays(before[..i], before[i + |MARK|..], last);
      }
    }
  }

  ghost predicate LeavesNone(text: string, secrets: seq<string>) {
    forall s :: s in secrets ==> !Contains(RedactAll(text, secrets), s)
  }

  /** For a secret without brackets, overlapping the mark is being part of its word. */
  lemma PlainOverlap(s: string)
    requires Plain(s)
    ensures NoOverlap(s) <==> !Contains(WORD, s)
  {
    if Contains(WORD, s) {
      WordInMark();
      ContainsTrans(MARK, WORD, s);
    } else {
      if Contains(MARK, s) {
        var i :| At(MARK, i, s);
        assert MARK + "" == MARK && At(MARK, i, s);
        if i == 0 { WindowIsPlain(MARK, i, s, 0); }
        if i <= 9 < i + |s| { WindowIsPlain(MARK, i, s, 9); }
        WordHolds(MARK, i, s);
      }
      forall k | 0 < k <= |MARK| && k < |s| ensures s[..k] != MARK[|MARK| - k..] {
        assert MARK[|MARK| - k..][k - 1] == ']' && s[..k][k - 1] == s[k - 1];
      }
      forall n | 0 < n < |s| ensures !MeetsMark(s[n..]) { assert s[n..][0] == s[n]; }
    }
  }

  /** For secrets without brackets the redactor cleans every text exactly when none of them is part
      of the word "redacted". */
  lemma {:induction false} CleansExactlyWhen(secrets: seq<string>)
    requires forall s :: s in secrets ==> Plain(s)
    ensures (forall text :: LeavesNone(text, secrets)) <==> forall s :: s in secrets ==> !Contains(WORD, s)
  {
    forall s | s in secrets ensures NoOverlap(s) <==> !Contains(WORD, s) { PlainOverlap(s); }
    if forall s :: s in secrets ==> !Contains(WORD, s) {
      forall text ensures LeavesNone(text, secrets) { OutputIsClean(text, secrets); }
    } else {
      var s :| s in secrets && Contains(WORD, s);
      MarkForever(secrets);
      WordInMark();
      ContainsTrans(MARK, WORD, s);
      ContainsTrans(RedactAll(MARK, secrets), MARK, s);
      assert !LeavesNone(MARK, secrets);
    }
  }

  // ------------------------------------------------------------ one secret, any characters

  /** The front of the secret, followed by the secret, holds no earlier occurrence of it. */
  ghost predicate FirstHere(s: string, n: nat)
    requires n <= |s|
  {
    forall i :: 0 <= i < n ==> !At(s[..n] + s, i, s)
  }

  /** The secret is inside the mark, or begins with an end of the mark, or some end of it is read in a
      mark and what precedes that end can stand before the secret without forming it earlier. */
  ghost predicate Regrows(s: string) {
    || Contains(MARK, s)
    || BeginsWithMarkEnd(s)
    || (exists n :: 0 < n < |s| && MeetsMark(s[n..]) && FirstHere(s, n))
  }

  /** Up to its first occurrence a text is copied. */
  lemma {:induction false} ReplacedAt(text: string, m: nat, s: string)
    requires s != "" && At(text, m, s) && forall i :: 0 <= i < m ==> !At(text, i, s)
    ensures SplitJoin(text, s) == text[..m] + (MARK + SplitJoin(text[m + |s|..], s))
    decreases m
  {
    hide SplitJoin;
    FrontIsAt(text, s);
    if m == 0 {
      ReplacedInFront(text, s);
    } else {
      AtLater(text, m, s);
      NoneBefore(text, m, s);
      assert !At(text, 0, s);
      hide At;
      ReplacedAt(text[1..], m - 1, s);
      DropTwice(text, 1, m - 1 + |s|);
      CopiedUpTo(text, m, s, MARK + SplitJoin(text[m + |s|..], s));
    }
  }

  lemma ReplacedInFront(text: string, s: string)
    requires s != "" && s <= text
    ensures SplitJoin(text, s) == text[..0] + (MARK + SplitJoin(text[|s|..], s))
  {
    SplitJoinReplaces(text, s);
    hide SplitJoin;
    NothingBefore(text, MARK + SplitJoin(text[|s|..], s));
  }

  lemma CopiedUpTo(text: string, m: nat, s: string, after: string)
    requires s != "" && !(s <= text) && 0 < m <= |text| && SplitJoin(text[1..], s) == text[1..][..m - 1] + after
    ensures SplitJoin(text, s) == text[..m] + after
  {
    SplitJoinCopies(text, s);
    hide SplitJoin;
    ConsFront(text, m, after);
  }

  /** A text without the secret is copied to its end. */
  lemma {:induction false} NoneStays(text: string, s: string)
    requires s != "" && !Contains(text, s)
    ensures SplitJoin(text, s) == text
    decreases |text|
  {
    if text != "" {
      ContainsTail(text, s);
      NoneStays(text[1..], s);
      SplitJoinCopies(text, s);
    }
  }

  /** The empty part puts a mark between any two characters and none before the first or after the last. */
  lemma {:induction false} EmptyPartSeparates(text: string, i: nat)
    requires i < |text|
    ensures |SplitJoin(text, "")| == |text| + 10 * (|text| - 1)
    ensures SplitJoin(text, "")[11 * i] == text[i]
    ensures i + 1 < |text| ==> SplitJoin(text, "")[11 * i + 1..11 * i + 11] == MARK
    decreases |text|
  {
    if |text| <= 1 {
      assert SplitJoin(text, "") == text;
    } else {
      var rest := SplitJoin(text[1..], "");
      EmptyPartSeparates(text[1..], if i == 0 then 0 else i - 1);
      OneMoreSeparated(text);
      hide SplitJoin;
      Behind(text[0], MARK, rest);
      if i > 0 && i + 1 < |text| { SlicesShift([text[0]] + MARK, rest, 11 * (i - 1) + 1, 11 * (i - 1) + 11); }
    }
  }

  lemma OneMoreSeparated(text: string)
    requires |text| > 1
    ensures SplitJoin(text, "") == [text[0]] + MARK + SplitJoin(text[1..], "")
  {
  }

  lemma SlicesShift(front: string, rest: string, a: nat, b: nat)
    requires |front| == 11 && a <= b <= |rest|
    ensures (front + rest)[a + 11..b + 11] == rest[a..b]
  {
  }

  lemma Behind(c: char, mark: string, rest: string)
    requires |mark| == 10
    ensures var out := [c] + mark + rest;
      |out| == 11 + |rest| && out[0] == c && out[1..11] == mark && forall k :: 0 <= k < |rest| ==> out[11 + k] == rest[k]
  {
  }

  lemma FrontIsAt(text: string, s: string)
    ensures s <= text <==> At(text, 0, s)
  {
  }

  lemma NothingBefore(text: string, after: string)
    ensures text[..0] + after == after
  {
  }

  lemma NothingAfter(before: string)
    ensures before + "" == before
  {
  }

  lemma DropTwice(text: string, a: nat, b: nat)
    requires a + b <= |text|
    ensures text[a..][b..] == text[a + b..]
  {
  }

  lemma ConsFront(text: string, m: nat, after: string)
    requires 0 < m <= |text|
    ensures [text[0]] + (text[1..][..m - 1] + after) == text[..m] + after
  {
    assert [text[0]] + text[1..][..m - 1] == text[..m];
    ConsAppend(text[0], text[1..][..m - 1], after);
  }

  lemma AtLater(text: string, i: int, s: string)
    requires text != "" && i > 0
    ensures At(text, i, s) <==> At(text[1..], i - 1, s)
  {
    if i <= |text| - |s| { assert text[1..][i - 1..i - 1 + |s|] == text[i..i + |s|]; }
  }

  lemma NoneBefore(text: string, m: nat, s: string)
    requires text != "" && forall i :: 0 <= i < m ==> !At(text, i, s)
    ensures forall i :: 0 <= i < m - 1 ==> !At(text[1..], i, s)
  {
    forall i | 0 <= i < m - 1 ensures !At(text[1..], i, s) { AtLater(text, i + 1, s); }
  }

  lemma {:induction false} FirstMatch(text: string, s: string) returns (m: nat)
    requires Contains(text, s)
    ensures At(text, m, s) && forall i :: 0 <= i < m ==> !At(text, i, s)
  {
    var found :| At(text, found, s);
    m := 0;
    while !At(text, m, s)
      invariant m <= found && forall i :: 0 <= i < m ==> !At(text, i, s)
      decreases found - m
    {
      m := m + 1;
    }
  }

  /** A secret that does not regrow is gone from every text. */
  lemma {:induction false} NoRegrowth(text: string, s: string)
    requires s != "" && !Regrows(s)
    ensures !Contains(SplitJoin(text, s), s)
    decreases |text|
  {
    if !Contains(text, s) {
      NoneStays(text, s);
    } else {
      var m := FirstMatch(text, s);
      ReplacedAt(text, m, s);
      NoRegrowth(text[m + |s|..], s);
      var rest := SplitJoin(text[m + |s|..], s);
      hide SplitJoin;
      hide Regrows;
      forall i ensures !At(text[..m] + (MARK + rest), i, s) {
        if At(text[..m] + (MARK + rest), i, s) { WhereItRegrows(text, m, rest, s, i); }
      }
    }
  }

  /** An occurrence after the first one was replaced is an earlier one, a later one, or grown. */
  lemma WhereItRegrows(text: string, m: nat, rest: string, s: string, i: int)
    requires s != "" && At(text, m, s) && At(text[..m] + (MARK + rest), i, s)
    requires forall j :: 0 <= j < m ==> !At(text, j, s)
    ensures Regrows(s) || Contains(rest, s)
  {
    var u, v := text[..m], MARK + rest;
    if i >= m {
      AtBehind(u, v, i, s);
      WhereInMark(s, rest, i - m);
    } else if m < i + |s| {
      AtAcross(u, v, i, s);
      FrontOfMark(s[m - i..], rest);
      StandsFirst(text, m, s, i);
    } else {
      AtBefore(u, v, i, s);
      assert text[i..i + |s|] == u[i..i + |s|];
      assert At(text, i, s);
    }
  }

  lemma AtBefore(u: string, v: string, i: int, s: string)
    requires At(u + v, i, s) && i + |s| <= |u|
    ensures At(u, i, s)
  {
    assert u[i..i + |s|] == (u + v)[i..i + |s|];
  }

  lemma AtBehind(u: string, v: string, i: int, s: string)
    requires At(u + v, i, s) && i >= |u|
    ensures At(v, i - |u|, s)
  {
    assert v[i - |u|..i - |u| + |s|] == (u + v)[i..i + |s|];
  }

  lemma AtAcross(u: string, v: string, i: int, s: string)
    requires At(u + v, i, s) && i < |u| < i + |s|
    ensures s[..|u| - i] == u[i..] && s[|u| - i..] <= v
  {
    var n := |u| - i;
    assert forall k :: 0 <= k < |s| ==> s[k] == (u + v)[i + k];
    assert forall k :: 0 <= k < |s| - n ==> s[n..][k] == v[k];
  }

  lemma StandsFirst(text: string, m: nat, s: string, i: nat)
    requires At(text, m, s) && i < m < i + |s| && s[..m - i] == text[..m][i..]
    requires forall j :: 0 <= j < m ==> !At(text, j, s)
    ensures FirstHere(s, m - i)
  {
    var n := m - i;
    var both := s[..n] + s;
    assert both == text[i..m + |s|] by {
      assert text[i..m + |s|] == text[i..m] + text[m..m + |s|];
    }
    forall j | 0 <= j < n ensures !At(both, j, s) {
      if At(both, j, s) { WindowAt(text, i, m + |s|, j, s); }
    }
  }

  lemma WindowAt(text: string, a: nat, b: nat, j: int, s: string)
    requires a <= b <= |text| && At(text[a..b], j, s)
    ensures At(text, a + j, s)
  {
    assert forall k :: 0 <= k < |s| ==> text[a + j + k] == text[a..b][j + k] == s[k];
    assert text[a + j..a + j + |s|] == s;
  }

  /** A text that holds the secret before and after redaction. */
  ghost predicate Betrays(text: string, s: string) { Contains(text, s) && Contains(SplitJoin(text, s), s) }

  lemma RegrowsInside(s: string)
    requires s != "" && Contains(MARK, s)
    ensures Betrays(s, s)
  {
    SecretThen(s, "");
    hide SplitJoin;
    NothingAfter(s);
    NothingAfter(MARK);
  }

  lemma RegrowsAtItsFront(s: string, k: nat)
    requires 0 < k <= |MARK| && k < |s| && s[..k] == MARK[|MARK| - k..]
    ensures Betrays(s + s[k..], s)
  {
    var b := s[k..];
    SecretThen(s, b);
    MarkEndThen(MARK, b, s, k);
  }

  lemma SecretThen(s: string, b: string)
    requires |b| < |s|
    ensures At(s + b, 0, s) && SplitJoin(s + b, s) == MARK + b
  {
    var text := s + b;
    hide SplitJoin;
    ReplacedAt(text, 0, s);
    assert text[|s|..] == b;
    NoneStays(b, s);
    NothingBefore(text, MARK + b);
  }

  lemma MarkEndThen(mark: string, b: string, s: string, k: nat)
    requires k <= |mark| && k < |s| && s[..k] == mark[|mark| - k..] && b == s[k..]
    ensures Contains(mark + b, s)
  {
    var out := mark + b;
    assert out[|mark| - k..] == mark[|mark| - k..] + b == s;
    assert At(out, |mark| - k, s);
  }

  lemma RegrowsAtItsEnd(s: string, n: nat) returns (text: string)
    requires 0 < n < |s| && MeetsMark(s[n..]) && FirstHere(s, n)
    ensures Betrays(text, s)
  {
    var tail := s[n..];
    var b := if MARK <= tail then tail[|MARK|..] else "";
    assert tail <= MARK + b;
    text := s[..n] + s + b;
    hide SplitJoin;
    hide MeetsMark;
    SecretBetween(s, n, b);
    ReplacedAt(text, n, s);
    NoneStays(b, s);
    FrontThen(s[..n], tail, MARK + b, s);
  }

  lemma SecretBetween(s: string, n: nat, b: string)
    requires n < |s| && FirstHere(s, n)
    ensures var text := s[..n] + s + b;
      At(text, n, s) && (forall i :: 0 <= i < n ==> !At(text, i, s)) && text[..n] == s[..n] && text[n + |s|..] == b
  {
    var text := s[..n] + s + b;
    var both := s[..n] + s;
    assert text[..n + |s|] == both;
    assert both[n..] == s;
    forall i | 0 <= i < n ensures !At(text, i, s) {
      if At(text, i, s) { AtBefore(both, b, i, s); }
    }
  }

  lemma FrontThen(u: string, tail: string, after: string, s: string)
    requires tail <= after && s == u + tail
    ensures Contains(u + after, s)
  {
    assert At(u + after, 0, s);
  }

  lemma SomeTextBetrays(s: string) returns (text: string)
    requires s != "" && Regrows(s)
    ensures Betrays(text, s)
  {
    hide Betrays;
    if Contains(MARK, s) {
      text := s;
      RegrowsInside(s);
    } else if BeginsWithMarkEnd(s) {
      var k :| 0 < k <= |MARK| && k < |s| && s[..k] == MARK[|MARK| - k..];
      text := s + s[k..];
      RegrowsAtItsFront(s, k);
    } else {
      var n :| 0 < n < |s| && MeetsMark(s[n..]) && FirstHere(s, n);
      text := RegrowsAtItsEnd(s, n);
    }
  }

  lemma BetraysMeans(text: string, s: string)
    ensures Contains(RedactAll(text, [s]), s) <==> Betrays(text, s)
  {
    RedactsOne(text, s);
    IncludesIsContains(text, s);
  }

  /** For one secret of any characters: some text still holds it after redaction exactly when it
      regrows out of the mark. */
  lemma {:induction false} OneSecretSurvivesExactlyWhen(s: string)
    requires s != ""
    ensures (exists text :: Contains(RedactAll(text, [s]), s)) <==> Regrows(s)
  {
    hide Regrows;
    hide RedactAll;
    hide Contains;
    if Regrows(s) {
      var text := SomeTextBetrays(s);
      BetraysMeans(text, s);
    } else {
      forall text ensures !Contains(RedactAll(text, [s]), s) {
        BetraysMeans(text, s);
        NoRegrowth(text, s);
      }
    }
  }

  lemma HeadInMark(i: int, s: string)
    requires s != "" && At(MARK, i, s)
    ensures s[0] != 'x'
  {
    assert s[0] == MARK[i];
  }

  /** A bracket alone does no harm: this secret is removed from every text. */
  lemma {:induction false} BracketSecretGoes(text: string)
    ensures !Contains(RedactAll(text, ["x[y"]), "x[y")
  {
    var s := "x[y";
    forall i ensures !At(MARK, i, s) { if At(MARK, i, s) { HeadInMark(i, s); } }
    assert s[..1] == "x" && s[..2] == "x[" && s[1..] == "[y" && s[2..] == "y";
    forall k | 0 < k <= |MARK| && k < |s| ensures s[..k] != MARK[|MARK| - k..] {
      assert s[..k][0] == 'x';
    }
    assert !MeetsMark(s[1..]) by { assert MARK[1] == 'r' && s[1..][1] == 'y'; }
    assert !MeetsMark(s[2..]);
    OutputIsClean(text, [s]);
  }

  lemma RedactsOne(text: string, s: string)
    ensures RedactAll(text, [s]) == RedactOne(text, s)
  {
    assert [s][..0] == [];
    assert RedactAll(text, []) == text;
  }

  lemma WordHasNoBracket(i: int, part: string, k: nat)
    requires At(WORD, i, part) && k < |part|
    ensures part[k] != '['
  {
    assert part[k] == WORD[i + k];
  }

  /** A secret with a bracket can come back out of the mark itself. */
  lemma {:induction false} BracketSecretSurvives()
    ensures Contains(RedactAll("aa[redac", ["a[redac"]), "a[redac") && !Contains(WORD, "a[redac")
  {
    var secret, text := "a[redac", "aa[redac";
    var secrets: seq<string> := [secret];
    assert secrets[..0] == [] && RedactAll(text, secrets[..0]) == text;
    assert !(secret <= text) && text[1..] == secret && secret <= secret && secret[|secret|..] == "";
    assert Includes(text, secret);
    assert SplitJoin("", secret) == "";
    assert SplitJoin(secret, secret) == MARK + "" == MARK;
    assert SplitJoin(text, secret) == "a" + MARK;
    assert ("a" + MARK)[0..7] == secret;
    assert At("a" + MARK, 0, secret);
    if Contains(WORD, secret) {
      var i :| At(WORD, i, secret);
      WordHasNoBracket(i, secret, 1);
    }
  }

  // ------------------------------------------------------------ which secrets, in which order

  /** The parts of the platform the collector calls: the name patterns, the URL parser (no password is
      the empty one), and the two URL codings. */
  datatype Platform = Platform(
    isUrlName: string -> bool, isSecretName: string -> bool, parseUrl: string -> Option<string>,
    decode: string -> Option<string>, encode: string -> string)

  /** `add`: a long enough value, as given and URL-encoded. */
  function Forms(value: string, p: Platform): set<string> {
    if |value| < MIN_LENGTH then {} else {value, p.encode(value)}
  }

  /** What one variable contributes: a connection string its password, an unparseable one itself. */
  function FormsOf(name: string, value: string, p: Platform): set<string> {
    if value == "" then {}
    else if p.isUrlName(name) then
      match p.parseUrl(value)
      case None => Forms(value, p)
      case Some(password) =>
        if password == "" then {}
        else Forms(password, p) + (if p.decode(password).Some? then Forms(p.decode(password).value, p) else {})
    else if p.isSecretName(name) then Forms(value, p)
    else {}
  }

  function AllForms(env: seq<(string, string)>, p: Platform): set<string> {
    set e, s | e in env && s in FormsOf(e.0, e.1, p) :: s
  }

  /** The variable holds this credential: a connection string its password, as written and decoded, or
      itself when it cannot be parsed; and a variable with a secret's name its value. */
  ghost predicate Credential(name: string, value: string, p: Platform, secret: string) {
    value != "" &&
    if p.isUrlName(name) then
      if p.parseUrl(value).None? then secret == value
      else p.parseUrl(value).value != "" && (secret == p.parseUrl(value).value || p.decode(p.parseUrl(value).value) == Some(secret))
    else p.isSecretName(name) && secret == value
  }

  /** What is redacted is exactly every credential of at least six characters, and what each of them
      looks like URL-encoded. */
  lemma {:induction false} FormsAreCredentials(env: seq<(string, string)>, p: Platform, s: string)
    ensures s in AllForms(env, p) <==>
      exists e, secret :: e in env && Credential(e.0, e.1, p, secret) && |secret| >= 6 && (s == secret || s == p.encode(secret))
  {
    forall e: (string, string)
      ensures s in FormsOf(e.0, e.1, p) <==>
        exists secret :: Credential(e.0, e.1, p, secret) && |secret| >= 6 && (s == secret || s == p.encode(secret))
    {
      OneVariable(e.0, e.1, p, s);
    }
    hide FormsOf, Credential;
  }

  lemma OneVariable(name: string, value: string, p: Platform, s: string)
    ensures s in FormsOf(name, value, p) <==>
      exists secret :: Credential(name, value, p, secret) && |secret| >= 6 && (s == secret || s == p.encode(secret))
  {
    if s in FormsOf(name, value, p) {
      var password := if p.isUrlName(name) && p.parseUrl(value).Some? then p.parseUrl(value).value else value;
      var decoded := p.decode(password);
      assert s in Forms(password, p) ==> Credential(name, value, p, password) && |password| >= 6;
      assert s !in Forms(password, p) ==> Credential(name, value, p, decoded.value) && |decoded.value| >= 6;
    }
  }

  ghost predicate NoRepeats(found: seq<string>) { forall i, j :: 0 <= i < j < |found| ==> found[i] != found[j] }

  ghost predicate LongestFirst(found: seq<string>) { forall i, j :: 0 <= i < j < |found| ==> |found[i]| >= |found[j]| }

  ghost predicate IsListOf(found: seq<string>, all: set<string>) {
    NoRepeats(found) && forall s :: s in found <==> s in all
  }

  /** `Set.add`, on the set's insertion order. */
  function SetAdd(found: seq<string>, value: string): seq<string> { if value in found then found else found + [value] }

  method Add(found: seq<string>, value: string, p: Platform, ghost all: set<string>) returns (more: seq<string>)
    requires IsListOf(found, all)
    ensures IsListOf(more, all + Forms(value, p))
  {
    if |value| < MIN_LENGTH { return found; }
    more := SetAdd(SetAdd(found, value), p.encode(value));
  }

  /** `sort((a, b) => b.length - a.length)`: stable, longest first. */
  function InsertByLength(value: string, sorted: seq<string>): seq<string> {
    if sorted == [] || |value| > |sorted[0]| then [value] + sorted else [sorted[0]] + InsertByLength(value, sorted[1..])
  }

  function SortByLength(found: seq<string>): seq<string>
    decreases |found|
  {
    if found == [] then [] else InsertByLength(found[|found| - 1], SortByLength(found[..|found| - 1]))
  }

  lemma {:induction false} InsertHolds(value: string, sorted: seq<string>)
    requires LongestFirst(sorted) && NoRepeats(sorted) && value !in sorted
    ensures var after := InsertByLength(value, sorted);
      LongestFirst(after) && NoRepeats(after) && forall s :: s in after <==> s == value || s in sorted
    decreases |sorted|
  {
    if sorted != [] && |value| <= |sorted[0]| {
      var rest := sorted[1..];
      assert forall s :: s in sorted <==> s == sorted[0] || s in rest;
      InsertHolds(value, rest);
      var after := InsertByLength(value, rest);
      assert InsertByLength(value, sorted) == [sorted[0]] + after;
      assert forall k :: 0 <= k < |after| ==> after[k] in after;
      assert sorted[0] !in rest;
    }
  }

  lemma {:induction false} SortHolds(found: seq<string>)
    requires NoRepeats(found)
    ensures var sorted := SortByLength(found); LongestFirst(sorted) && NoRepeats(sorted) && forall s :: s in sorted <==> s in found
    decreases |found|
  {
    if found != [] {
      var n := |found| - 1;
      SortHolds(found[..n]);
      assert found == found[..n] + [found[n]];
      InsertHolds(found[n], SortByLength(found[..n]));
    }
  }

  /** `collectSecrets`: every form of every credential once, the longest first. */
  method CollectSecrets(env: seq<(string, string)>, p: Platform) returns (secrets: seq<string>)
    ensures IsListOf(secrets, AllForms(env, p)) && LongestFirst(secrets)
  {
    var found: seq<string> := [];
    for i := 0 to |env|
      invariant IsListOf(found, AllForms(env[..i], p))
    {
      var name, value := env[i].0, env[i].1;
      ghost var all := AllForms(env[..i], p);
      OneMoreVariable(env, i, p);
      if value != "" {
        if p.isUrlName(name) {
          var parsed := p.parseUrl(value);
          match parsed
          case None => found := Add(found, value, p, all);
          case Some(password) =>
            if password != "" {
              found := Add(found, password, p, all);
              var decoded := p.decode(password);
              if decoded.Some? {
                found := Add(found, decoded.value, p, all + Forms(password, p));
                assert all + Forms(password, p) + Forms(decoded.value, p) == all + FormsOf(name, value, p);
              }
            }
        } else if p.isSecretName(name) {
          found := Add(found, value, p, all);
        }
      }
    }
    assert env[..|env|] == env;
    SortHolds(found);
    secrets := SortByLength(found);
  }

  lemma OneMoreVariable(env: seq<(string, string)>, i: nat, p: Platform)
    requires i < |env|
    ensures AllForms(env[..i + 1], p) == AllForms(env[..i], p) + FormsOf(env[i].0, env[i].1, p)
  {
    assert env[..i + 1] == env[..i] + [env[i]];
    hide FormsOf;
  }

  /** With the longest first, a secret printed on its own is replaced whole, even when others are part
      of it: nothing of it is left but the mark. */
  lemma {:induction false} SecretReplacedWhole(secrets: seq<string>, s: string)
    requires Cleanable(secrets) && LongestFirst(secrets) && NoRepeats(secrets) && s in secrets
    ensures RedactAll(s, secrets) == MARK
    decreases |secrets|
  {
    var n := |secrets| - 1;
    var front, last := secrets[..n], secrets[n];
    assert last in secrets;
    if s in front {
      SecretReplacedWhole(front, s);
      IncludesIsContains(MARK, last);
    } else {
      assert s == last;
      forall e | e in front ensures !Contains(s, e) { LongerNotWithin(s, e); }
      CleanTextUnchanged(s, front);
      assert At(s, 0, s);
      IncludesIsContains(s, s);
      assert s[|s|..] == "" && SplitJoin("", s) == "";
    }
  }

  lemma LongerNotWithin(s: string, e: string)
    requires |e| >= |s| && e != s
    ensures !Contains(s, e)
  {
  }
}
