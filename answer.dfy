/**
 * The per-question logic of the front end: the refusal test on the
 * retrieval chain's answer, the fallback completion, and the output line
 * shown to the user. The retrieval chain and the completion service are
 * remote calls and appear as parameters.
 */
module Answer {
  import opened Wrappers
  import opened Text

  /** What the retrieval-with-sources chain returns for a question. */
  datatype ChainResult = ChainResult(answer: string, sources: string)

  /** The retrieval-with-sources chain, applied to {"question": q}. */
  type Chain = string -> ChainResult

  /** The completion service: the text of the first choice returned for a prompt. */
  type Completion = string -> string

  /** The answer and sources that are finally shown. */
  datatype Reply = Reply(answer: string, sources: string)

  const RefusalPhrases: seq<string> := ["i don't know", "i do not know"]

  const FallbackSources: string := "OpenAI API"


  /**
   * `answer` spells `phrase` letter for letter, each character either as
   * written in the phrase or as the upper-case form of a lower-case letter.
   */
  predicate SpellsIgnoringCase(answer: string, phrase: string)
  {
    |answer| == |phrase| &&
    forall k :: 0 <= k < |answer| ==>
      answer[k] == phrase[k] || (IsAsciiUpper(answer[k]) && answer[k] as int + 32 == phrase[k] as int)
  }

  predicate NoUpper(s: string)
  {
    forall k :: 0 <= k < |s| ==> !IsAsciiUpper(s[k])
  }

  lemma LowerMatchesPhrase(answer: string, phrase: string)
    requires NoUpper(phrase)
    ensures AsciiLower(answer) == phrase <==> SpellsIgnoringCase(answer, phrase)
  {
    if SpellsIgnoringCase(answer, phrase) {
      assert forall k :: 0 <= k < |answer| ==> AsciiLower(answer)[k] == phrase[k];
    }
  }

  /**
   * The chain answer counts as unsatisfactory when its lower-cased text is a
   * refusal phrase: exactly when it spells one of the two phrases up to the
   * case of its letters, with nothing before or after it.
   */
  function IsRefusal(answer: string): (b: bool)
    ensures b <==> SpellsIgnoringCase(answer, "i don't know") || SpellsIgnoringCase(answer, "i do not know")
  {
    assert NoUpper("i don't know");
    assert NoUpper("i do not know");
    LowerMatchesPhrase(answer, "i don't know");
    LowerMatchesPhrase(answer, "i do not know");
    AsciiLower(answer) in RefusalPhrases
  }

  /**
   * A refusal is 12 or 13 characters long, begins with "i" or "I" and ends
   * with "w" or "W"; so surrounding spaces or a final full stop defeat it.
   */
  lemma RefusalShape(answer: string)
    ensures IsRefusal(answer) ==>
              (|answer| == 12 || |answer| == 13) &&
              (answer[0] == 'i' || answer[0] == 'I') &&
              (answer[|answer| - 1] == 'w' || answer[|answer| - 1] == 'W')
  {
  }

  lemma RefusalExamples()
    ensures IsRefusal("I don't know") && IsRefusal("I DO NOT KNOW") && IsRefusal("i do not know")
  {
    assert SpellsIgnoringCase("I don't know", "i don't know");
    assert SpellsIgnoringCase("I DO NOT KNOW", "i do not know");
  }

  lemma NonRefusalExamples()
    ensures !IsRefusal("I don't know.") && !IsRefusal(" I don't know") && !IsRefusal("I don't know ")
    ensures !IsRefusal("I dont know")
  {
    RefusalShape("I don't know.");
    RefusalShape(" I don't know");
    RefusalShape("I don't know ");
    RefusalShape("I dont know");
  }

  /** The prompt sent to the completion service: the question, a blank line, "Answer:". */
  function FallbackPrompt(question: string): (prompt: string)
    ensures |prompt| == |question| + 9
    ensures prompt[..|question|] == question && prompt[|question|..] == "\n\nAnswer:"
  {
    question + "\n\nAnswer:"
  }

  /** Different questions give different prompts. */
  lemma FallbackPromptInjective(q1: string, q2: string)
    requires FallbackPrompt(q1) == FallbackPrompt(q2)
    ensures q1 == q2
  {
    assert |q1| == |q2|;
    assert q1 == FallbackPrompt(q1)[..|q1|];
  }

  /** The answer taken from the completion service: its text with the surrounding whitespace removed. */
  function FallbackAnswer(question: string, complete: Completion): (answer: string)
    ensures answer != [] ==> !IsSpace(answer[0]) && !IsSpace(answer[|answer| - 1])
  {
    Strip(complete(FallbackPrompt(question)))
  }

  /**
   * The answer and sources chosen from the chain's result, falling back when
   * it refused. A reply whose sources are not "OpenAI API" is the chain's own,
   * and a refusal is shown only when the chain refused too.
   */
  function Decide(question: string, result: ChainResult, complete: Completion): (r: Reply)
    ensures r.sources != FallbackSources ==> r == Reply(result.answer, result.sources)
    ensures IsRefusal(r.answer) ==> IsRefusal(result.answer) && r.sources == FallbackSources
  {
    if IsRefusal(result.answer) then Reply(FallbackAnswer(question, complete), FallbackSources)
    else Reply(result.answer, result.sources)
  }

  /**
   * Without a refusal the chain's answer and sources are shown unchanged and
   * the completion service plays no part.
   */
  lemma GroundedReply(question: string, result: ChainResult, complete: Completion, other: Completion)
    requires !IsRefusal(result.answer)
    ensures Decide(question, result, complete) == Reply(result.answer, result.sources)
    ensures Decide(question, result, complete) == Decide(question, result, other)
  {
  }

  /**
   * After a refusal the reply is the stripped completion for the fallback
   * prompt with sources "OpenAI API", whatever the chain's answer and sources were.
   */
  lemma FallbackReply(question: string, result: ChainResult, other: ChainResult, complete: Completion)
    requires IsRefusal(result.answer) && IsRefusal(other.answer)
    ensures Decide(question, result, complete) ==
            Reply(Strip(complete(question + "\n\nAnswer:")), "OpenAI API")
    ensures Decide(question, result, complete) == Decide(question, other, complete)
  {
  }

  /**
   * A refusal is shown only when the completion service itself, once
   * stripped, refuses; and a grounded reply is never a refusal.
   */
  lemma NoRefusalSurvives(question: string, result: ChainResult, complete: Completion)
    requires IsRefusal(Decide(question, result, complete).answer)
    ensures IsRefusal(result.answer)
    ensures IsRefusal(Strip(complete(FallbackPrompt(question))))
    ensures Decide(question, result, complete).sources == FallbackSources
  {
  }

  /**
   * The text stored for the transcript: "Answer: ", the answer, a newline,
   * "Sources: " and the sources, each piece at its own place.
   */
  function FormatOutput(reply: Reply): (out: string)
    ensures var a, n := |reply.answer|, |out|;
            n == 8 + a + 10 + |reply.sources| &&
            out[..8] == "Answer: " && out[8..8 + a] == reply.answer &&
            out[8 + a..8 + a + 10] == "\nSources: " && out[8 + a + 10..] == reply.sources
  {
    "Answer: " + reply.answer + "\nSources: " + reply.sources
  }

  /** Splits a stored output back into answer and sources at its first newline. */
  function ParseOutput(output: string): Option<Reply>
  {
    if |output| < 8 || output[..8] != "Answer: " then None
    else
      var rest := output[8..];
      var newline := FirstIndexOf(rest, '\n');
      if newline.None? then None
      else
        var k := newline.value;
        if |rest| - k < 10 || rest[k..k + 10] != "\nSources: " then None
        else Some(Reply(rest[..k], rest[k + 10..]))
  }

  /** A reply whose answer is a single line is recovered from its output. */
  lemma {:induction false} OutputRoundTrip(reply: Reply)
    requires '\n' !in reply.answer
    ensures ParseOutput(FormatOutput(reply)) == Some(reply)
  {
    var out := FormatOutput(reply);
    var rest := out[8..];
    assert out[..8] == "Answer: ";
    assert rest == reply.answer + "\nSources: " + reply.sources;
    var a := |reply.answer|;
    assert rest[..a] == reply.answer;
    assert rest[a] == '\n';
    assert FirstIndexOf(rest, '\n') == Some(a);
    assert rest[a..a + 10] == "\nSources: ";
    assert rest[a + 10..] == reply.sources;
  }

  /** Whatever the parser accepts is exactly the output of the reply it returns. */
  lemma OutputParseSound(output: string, reply: Reply)
    requires ParseOutput(output) == Some(reply)
    ensures FormatOutput(reply) == output
  {
    var rest := output[8..];
    var k := FirstIndexOf(rest, '\n').value;
    assert reply.answer == rest[..k] && reply.sources == rest[k + 10..];
    assert output[..8] == "Answer: " && rest[k..k + 10] == "\nSources: ";
    Reassemble(output, 8, 8 + k, 8 + k + 10);
  }

  lemma Reassemble<T>(s: seq<T>, i: nat, j: nat, k: nat)
    requires i <= j <= k <= |s|
    ensures s == s[..i] + s[i..j] + s[j..k] + s[k..]
  {
  }

  /**
   * With "\nSources: " inside the answer the output no longer determines the
   * reply: moving text across the marker gives a different reply with the
   * same output.
   */
  lemma OutputAmbiguous(a: string, b: string, c: string)
    ensures Reply(a + "\nSources: " + b, c) != Reply(a, b + "\nSources: " + c)
    ensures FormatOutput(Reply(a + "\nSources: " + b, c)) == FormatOutput(Reply(a, b + "\nSources: " + c))
  {
    var head, marker := "Answer: ", "\nSources: ";
    assert |a + marker + b| != |a|;
    Regroup(head, a, marker, b, c);
  }

  lemma Regroup<T>(h: seq<T>, a: seq<T>, m: seq<T>, b: seq<T>, c: seq<T>)
    ensures h + (a + m + b) + m + c == h + a + m + (b + m + c)
  {
  }
}
