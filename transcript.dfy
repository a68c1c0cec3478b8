/**
 * The session transcript of the front end: the questions asked (`past`)
 * and the outputs shown for them (`generated`), appended in lockstep, and
 * the chat display that walks them from the most recent to the oldest.
 */
module Transcript {
  import opened Text
  import opened Answer

  /** The widget key of a bubble: the bot bubble or the user bubble of entry i. */
  datatype Key = BotKey(entry: nat) | UserKey(entry: nat)

  /** One chat bubble: its text, whether it is the user's, and its widget key. */
  datatype Message = Message(text: string, isUser: bool, key: Key)

  /** The key string handed to the widget: str(i), or str(i) + "_user" for the user bubble. */
  function KeyText(k: Key): string
  {
    match k
    case BotKey(i) => NatToString(i)
    case UserKey(i) => NatToString(i) + "_user"
  }

  /** Different keys have different key strings, so no two bubbles of one display collide. */
  lemma KeyTextInjective(k1: Key, k2: Key)
    requires k1 != k2
    ensures KeyText(k1) != KeyText(k2)
  {
    var a, b := NatToString(k1.entry), NatToString(k2.entry);
    if k1.BotKey? && k2.BotKey? {
      NatToStringInjective(k1.entry, k2.entry);
    } else if k1.UserKey? && k2.UserKey? {
      NatToStringInjective(k1.entry, k2.entry);
      if |a| == |b| {
        assert KeyText(k1)[..|a|] == a && KeyText(k2)[..|b|] == b;
      } else {
        assert KeyText(k1)[|a|] == '_' && KeyText(k2)[|b|] == '_';
        if |a| < |b| {
          assert KeyText(k2)[|a|] == b[|a|];
        } else {
          assert KeyText(k1)[|b|] == a[|b|];
        }
      }
    } else if k1.BotKey? {
      assert KeyText(k2)[|b|] == '_' && !IsDigit('_');
    } else {
      assert KeyText(k1)[|a|] == '_' && !IsDigit('_');
    }
  }

  /**
   * The bubbles for the first |generated| entries, newest first: two per
   * entry, the answer and then the question.
   */
  function Display(past: seq<string>, generated: seq<string>): (d: seq<Message>)
    requires |generated| <= |past|
    ensures |d| == 2 * |generated|
    decreases |generated|
  {
    if generated == [] then []
    else
      var i := |generated| - 1;
      [Message(generated[i], false, BotKey(i)), Message(past[i], true, UserKey(i))] +
      Display(past, generated[..i])
  }

  /**
   * Positions 2t and 2t + 1 of the display show entry n - 1 - t, its answer
   * and then its question.
   */
  lemma {:induction false} DisplayAt(past: seq<string>, generated: seq<string>, t: nat)
    requires |generated| <= |past| && t < |generated|
    ensures var d, i := Display(past, generated), |generated| - 1 - t;
            d[2 * t] == Message(generated[i], false, BotKey(i)) &&
            d[2 * t + 1] == Message(past[i], true, UserKey(i))
    decreases |generated|
  {
    var n := |generated|;
    var front := generated[..n - 1];
    var rest := Display(past, front);
    var i := n - 1;
    var head := [Message(generated[i], false, BotKey(i)), Message(past[i], true, UserKey(i))];
    assert Display(past, generated) == head + rest;
    if t > 0 {
      DisplayAt(past, front, t - 1);
      assert front[n - 1 - t] == generated[n - 1 - t];
      assert |head| == 2;
    }
  }

  /**
   * Every bubble of a display has its own key, and so its own key string:
   * each entry is shown exactly once, as one bot and one user bubble.
   */
  lemma DisplayKeysUnique(past: seq<string>, generated: seq<string>, t1: nat, t2: nat)
    requires |generated| <= |past|
    requires t1 < t2 < |Display(past, generated)|
    ensures Display(past, generated)[t1].key != Display(past, generated)[t2].key
    ensures KeyText(Display(past, generated)[t1].key) != KeyText(Display(past, generated)[t2].key)
  {
    var d, n := Display(past, generated), |generated|;
    var p1, p2 := t1 / 2, t2 / 2;
    DisplayAt(past, generated, p1);
    DisplayAt(past, generated, p2);
    assert t1 == 2 * p1 || t1 == 2 * p1 + 1;
    assert t2 == 2 * p2 || t2 == 2 * p2 + 1;
    assert d[t1].key.entry == n - 1 - p1 && d[t2].key.entry == n - 1 - p2;
    assert d[t1].key.BotKey? <==> t1 == 2 * p1;
    assert d[t2].key.BotKey? <==> t2 == 2 * p2;
    KeyTextInjective(d[t1].key, d[t2].key);
  }

  /** Entries of `past` beyond the displayed ones do not affect the display. */
  lemma {:induction false} DisplayIgnoresExtraPast(past: seq<string>, more: seq<string>, generated: seq<string>)
    requires |generated| <= |past|
    ensures Display(past + more, generated) == Display(past, generated)
    decreases |generated|
  {
    if generated != [] {
      var i := |generated| - 1;
      assert (past + more)[i] == past[i];
      DisplayIgnoresExtraPast(past, more, generated[..i]);
    }
  }

  /** Recording a new pair puts its two bubbles in front of the previous display. */
  lemma DisplayAfterRecord(past: seq<string>, generated: seq<string>, question: string, output: string)
    requires |generated| == |past|
    ensures Display(past + [question], generated + [output]) ==
            [Message(output, false, BotKey(|past|)), Message(question, true, UserKey(|past|))] +
            Display(past, generated)
  {
    assert (generated + [output])[..|generated|] == generated;
    DisplayIgnoresExtraPast(past, [question], generated);
  }

  /** The two session lists `past` and `generated`. */
  class Session {
    var past: seq<string>
    var generated: seq<string>

    /** The two lists are appended in lockstep, so entry i of each belongs to question i. */
    ghost predicate Valid()
      reads this
    {
      |past| == |generated|
    }

    constructor ()
      ensures Valid() && past == [] && generated == []
    {
      past, generated := [], [];
    }

    /**
     * Handles one submission: an empty input changes nothing; otherwise the
     * question and its formatted reply are appended to the two lists.
     */
    method Ask(userInput: string, chain: Chain, complete: Completion)
      requires Valid()
      modifies this
      ensures Valid()
      ensures userInput == [] ==> past == old(past) && generated == old(generated)
      ensures userInput != [] ==>
                past == old(past) + [userInput] &&
                generated == old(generated) + [FormatOutput(Decide(userInput, chain(userInput), complete))]
    {
      if userInput != [] {
        var result := chain(userInput);
        var reply := Decide(userInput, result, complete);
        var output := FormatOutput(reply);
        past := past + [userInput];
        generated := generated + [output];
      }
    }

    /** The chat display: entries from the newest to the oldest, answer before question. */
    method Render() returns (messages: seq<Message>)
      requires Valid()
      ensures messages == Display(past, generated)
    {
      messages := [];
      var i := |generated|;
      assert generated[..i] == generated;
      while i > 0
        invariant 0 <= i <= |generated|
        invariant messages + Display(past, generated[..i]) == Display(past, generated)
        decreases i
      {
        i := i - 1;
        var bot := Message(generated[i], false, BotKey(i));
        var user := Message(past[i], true, UserKey(i));
        assert generated[..i + 1][..i] == generated[..i];
        messages := messages + [bot, user];
      }
    }
  }
}
