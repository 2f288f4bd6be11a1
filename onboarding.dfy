/**
 * The onboarding assistant's answer to a free-form question: the language
 * model's reply, trimmed and cut down to at most two sentences, or a fixed
 * fallback when the call fails. The model's reply is a parameter (`None`
 * when the call throws).
 */
module Onboarding {
  import opened Wrappers
  import opened Text

  /** Characters of the sentence pattern `[.!?]`. */
  predicate IsTerminator(c: char) { c == '.' || c == '!' || c == '?' }

  predicate NoTerminator(s: string) { forall i :: 0 <= i < |s| ==> !IsTerminator(s[i]) }

  function FirstTerminator(s: string): (i: nat)
    requires !NoTerminator(s)
    ensures i < |s| && IsTerminator(s[i]) && NoTerminator(s[..i])
  {
    if IsTerminator(s[0]) then 0
    else
      var i := 1 + FirstTerminator(s[1..]);
      assert s[..i] == [s[0]] + s[1..][..i - 1];
      i
  }

  /** The end of the run of terminators that starts at `i`. */
  function RunEnd(s: string, i: nat): (j: nat)
    requires i < |s| && IsTerminator(s[i])
    ensures i < j <= |s|
    ensures forall k :: i <= k < j ==> IsTerminator(s[k])
    ensures j == |s| || !IsTerminator(s[j])
    decreases |s| - i
  {
    if i + 1 < |s| && IsTerminator(s[i + 1]) then RunEnd(s, i + 1) else i + 1
  }

  /**
   * `s.split(/[.!?]+/)`: the pieces between maximal runs of terminators,
   * including the empty piece before a leading run and after a trailing one.
   */
  function SplitRuns(s: string): (r: seq<string>)
    ensures |r| >= 1
    ensures forall k :: 0 <= k < |r| ==> NoTerminator(r[k])
    decreases |s|
  {
    if NoTerminator(s) then [s]
    else
      var i := FirstTerminator(s);
      [s[..i]] + SplitRuns(s[RunEnd(s, i)..])
  }

  /** `.filter(s => s.trim())`: the pieces that are not blank. */
  function Fragments(pieces: seq<string>): (r: seq<string>)
    ensures |r| <= |pieces|
    ensures forall k :: 0 <= k < |r| ==> !IsBlank(r[k]) && r[k] in pieces
  {
    if pieces == [] then []
    else if IsBlank(pieces[0]) then Fragments(pieces[1..])
    else [pieces[0]] + Fragments(pieces[1..])
  }

  /** The sentences of a text, as the answer counts them. */
  function Sentences(s: string): (r: seq<string>)
    ensures forall k :: 0 <= k < |r| ==> NoTerminator(r[k]) && !IsBlank(r[k])
  {
    Fragments(SplitRuns(s))
  }

  /** Keep the first two sentences, joined by ". " and closed by ".", when there are more. */
  function Truncate(response: string): (r: string)
    ensures |Sentences(response)| <= 2 ==> r == response
    ensures |Sentences(response)| > 2 ==> |r| >= 1 && r[|r| - 1] == '.'
  {
    var sentences := Sentences(response);
    if |sentences| > 2 then Trim(sentences[0] + ". " + sentences[1]) + "." else response
  }

  /** The reply used when the model call throws, exactly as the file holds it. */
  const Fallback: string := "That's interesting! \U{F0}\U{178}\U{2DC}\U{160}"

  /** `answerGeneralQuestion`, given the model's reply (`None` when the call throws). */
  function AnswerGeneralQuestion(reply: Option<string>): (r: string)
    ensures reply.None? ==> r == Fallback
    ensures reply.Some? && |Sentences(Trim(reply.value))| <= 2 ==> r == Trim(reply.value)
  {
    match reply
    case None => Fallback
    case Some(text) => Truncate(Trim(text))
  }

  // ----------------------------------------------------------------- proofs

  /** A piece without terminators, one terminator, and a rest that does not start a longer run. */
  lemma SplitRunsStep(a: string, c: char, rest: string)
    requires NoTerminator(a) && IsTerminator(c)
    requires rest == [] || !IsTerminator(rest[0])
    ensures SplitRuns(a + [c] + rest) == [a] + SplitRuns(rest)
  {
    var s := a + [c] + rest;
    FirstTerminatorAfter(a, c, rest);
    assert s[|a|] == c;
    assert RunEnd(s, |a|) == |a| + 1;
    assert s[..|a|] == a;
    assert s[|a| + 1..] == rest;
  }

  /** The first terminator after a terminator-free piece is the one that closes it. */
  lemma {:induction false} FirstTerminatorAfter(a: string, c: char, rest: string)
    requires NoTerminator(a) && IsTerminator(c)
    ensures !NoTerminator(a + [c] + rest) && FirstTerminator(a + [c] + rest) == |a|
  {
    var s := a + [c] + rest;
    assert s[|a|] == c;
    if a != [] {
      assert s[0] == a[0] && s[1..] == a[1..] + [c] + rest;
      FirstTerminatorAfter(a[1..], c, rest);
    }
  }

  /** Trimming two non-blank sentences joined by ". " trims only the outer ends. */
  lemma TrimJoined(f0: string, f1: string)
    requires !IsBlank(f0) && !IsBlank(f1)
    ensures Trim(f0 + ". " + f1) == TrimStart(f0) + ". " + TrimEnd(f1)
  {
    assert f0 + ". " + f1 == f0 + (". " + f1);
    TrimStartAppend(f0, ". " + f1);
    assert TrimStart(f0) + (". " + f1) == (TrimStart(f0) + ". ") + f1;
    TrimEndAppend(TrimStart(f0) + ". ", f1);
  }

  /** The ". " between two sentences is a terminator followed by the second sentence's space. */
  lemma Regroup(a: string, e: string)
    ensures a + ". " + e + "." == a + "." + (" " + e) + "."
  {
  }

  /** Trimming the outer ends of two non-blank sentences leaves them non-blank. */
  lemma TrimmedNotBlank(f0: string, f1: string)
    requires !IsBlank(f0) && !IsBlank(f1)
    ensures !IsBlank(TrimStart(f0)) && !IsBlank(" " + TrimEnd(f1))
  {
    var a, e := TrimStart(f0), TrimEnd(f1);
    assert !IsSpace(a[0]);
    assert (" " + e)[|e|] == e[|e| - 1];
  }

  /** Two terminator-free pieces, the second non-empty, each closed by one terminator, split into those two and an empty tail. */
  lemma SplitTwo(a: string, b: string)
    requires NoTerminator(a) && NoTerminator(b) && b != []
    ensures SplitRuns(a + ['.'] + (b + ['.'])) == [a, b, []]
  {
    assert (b + ['.'])[0] == b[0];
    SplitRunsStep(a, '.', b + ['.']);
    assert b + ['.'] == b + ['.'] + [];
    SplitRunsStep(b, '.', []);
    assert SplitRuns([]) == [[]];
  }

  /** Of two non-blank pieces and an empty tail, the filter keeps the two pieces. */
  lemma FragmentsTwo(a: string, b: string)
    requires !IsBlank(a) && !IsBlank(b)
    ensures Fragments([a, b, []]) == [a, b]
  {
    var last: seq<string> := [[]];
    assert IsBlank(last[0]) && last[1..] == [];
    assert Fragments(last) == [];
    var tail := [b] + last;
    assert tail[1..] == last;
    assert Fragments(tail) == [b];
    var pieces := [a] + tail;
    assert pieces[1..] == tail;
  }

  /** Two non-blank sentences, each closed by one terminator, are read back as those two. */
  lemma TwoSentences(a: string, b: string)
    requires NoTerminator(a) && NoTerminator(b) && !IsBlank(a) && !IsBlank(b)
    ensures Sentences(a + "." + b + ".") == [a, b]
  {
    assert a + "." + b + "." == a + ['.'] + (b + ['.']);
    SplitTwo(a, b);
    FragmentsTwo(a, b);
  }

  /** Trimming a sentence keeps it free of terminators, with or without a leading space. */
  lemma TrimmedNoTerminator(f0: string, f1: string)
    requires NoTerminator(f0) && NoTerminator(f1)
    ensures NoTerminator(TrimStart(f0)) && NoTerminator(" " + TrimEnd(f1))
  {
    var a := TrimStart(f0);
    var e := TrimEnd(f1);
    assert a == f0[|f0| - |a|..];
    assert e == f1[..|e|];
    var b := " " + e;
    forall k | 0 <= k < |b| ensures !IsTerminator(b[k]) {
      if k > 0 { assert b[k] == f1[k - 1]; }
    }
  }

  /** A cut answer is the first sentence, a terminator, the second sentence and a terminator. */
  lemma TruncatedForm(response: string)
    requires |Sentences(response)| > 2
    ensures var ss := Sentences(response);
      Truncate(response) == TrimStart(ss[0]) + "." + (" " + TrimEnd(ss[1])) + "."
  {
    var ss := Sentences(response);
    TrimJoined(ss[0], ss[1]);
    Regroup(TrimStart(ss[0]), TrimEnd(ss[1]));
  }

  /**
   * When the answer is cut, its sentences are the first two sentences of the
   * reply, with the blanks before the first and after the second removed.
   */
  lemma TruncatedSentences(response: string)
    requires |Sentences(response)| > 2
    ensures var ss := Sentences(response);
      Sentences(Truncate(response)) == [TrimStart(ss[0]), " " + TrimEnd(ss[1])]
  {
    var ss := Sentences(response);
    TruncatedForm(response);
    TrimmedNotBlank(ss[0], ss[1]);
    TrimmedNoTerminator(ss[0], ss[1]);
    TwoSentences(TrimStart(ss[0]), " " + TrimEnd(ss[1]));
  }

  /** The answer never has more than two sentences. */
  lemma AtMostTwoSentences(response: string)
    ensures |Sentences(Truncate(response))| <= 2
  {
    if |Sentences(response)| > 2 {
      TruncatedSentences(response);
    }
  }

  /** Cutting an answer that was already cut changes nothing. */
  lemma TruncateIdempotent(response: string)
    ensures Truncate(Truncate(response)) == Truncate(response)
  {
    AtMostTwoSentences(response);
  }

  /** Two non-blank sentences around one terminator are read back as those two. */
  lemma SentencePair(a: string, c: char, b: string)
    requires NoTerminator(a) && IsTerminator(c) && NoTerminator(b)
    requires !IsBlank(a) && !IsBlank(b)
    ensures Sentences(a + [c] + b) == [a, b]
  {
    assert b != [];
    SplitRunsStep(a, c, b);
    assert SplitRuns(b) == [b];
    assert [a, b][1..] == [b];
    assert Fragments([b]) == [b];
  }

  /** The fallback reads as two sentences: the exclamation and the emoji. */
  lemma FallbackSentences()
    ensures |Sentences(Fallback)| == 2
  {
    var head := "That's interesting";
    var tail := " \U{F0}\U{178}\U{2DC}\U{160}";
    assert Fallback == head + ['!'] + tail;
    assert !IsBlank(head) by { assert !IsSpace(head[0]); }
    assert !IsBlank(tail) by { assert !IsSpace(tail[1]); }
    SentencePair(head, '!', tail);
  }

  /** Every answer, the fallback included, has at most two sentences. */
  lemma AnswerAtMostTwoSentences(reply: Option<string>)
    ensures |Sentences(AnswerGeneralQuestion(reply))| <= 2
  {
    match reply
    case None => FallbackSentences();
    case Some(text) => AtMostTwoSentences(Trim(text));
  }
}
