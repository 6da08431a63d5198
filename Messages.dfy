/**
 * Message extraction from a raw diagnostic line: the line is split on
 * `':'`, the first field is dropped and the remaining fields are joined
 * with the empty string.
 */
module Messages {
  import opened JsStrings

  /**
   * `item.split(':')`, then `shift()`, then `join('')`. The message never
   * contains a colon.
   */
  function Message(item: string): (r: string)
    ensures ':' !in r
  {
    var pieces := Split(item, ':');
    ConcatAvoids(pieces[1..], ':');
    Concat(pieces[1..])
  }

  /** No part of a concatenation holds `c`, so neither does the whole. */
  lemma {:induction false} ConcatAvoids(parts: seq<string>, c: char)
    requires forall k :: 0 <= k < |parts| ==> c !in parts[k]
    ensures c !in Concat(parts)
    decreases |parts|
  {
    if |parts| > 0 {
      ConcatAvoids(parts[1..], c);
    }
  }

  /** A line without a colon gives the empty message. */
  lemma MessageWithoutColon(item: string)
    requires ':' !in item
    ensures Message(item) == ""
  {
    SplitWithoutSeparator(item, ':');
  }

  /**
   * With its first colon at position `i`, a line's message is the text after
   * that colon with every later colon deleted.
   */
  lemma MessageAfterFirstColon(item: string, i: nat)
    requires i < |item| && item[i] == ':' && ':' !in item[..i]
    ensures Message(item) == RemoveAll(item[i + 1..], ':')
  {
    SplitAtFirst(item, ':', i);
    assert Split(item, ':')[1..] == Split(item[i + 1..], ':');
    ConcatSplit(item[i + 1..], ':');
  }

  /** Deleting a character the text lacks leaves it unchanged. */
  lemma {:induction false} RemoveAbsent(s: string, c: char)
    requires c !in s
    ensures RemoveAll(s, c) == s
    decreases |s|
  {
    if |s| > 0 {
      assert c !in s[1..];
      RemoveAbsent(s[1..], c);
    }
  }

  /** A line `head:tail` whose parts hold no colon has message `tail`, leading space kept. */
  lemma MessageOfTwoFieldLine(head: string, tail: string)
    requires ':' !in head && ':' !in tail
    ensures Message(head + ":" + tail) == tail
  {
    var item := head + ":" + tail;
    assert item[..|head|] == head && item[|head|] == ':' && item[|head| + 1..] == tail;
    MessageAfterFirstColon(item, |head|);
    RemoveAbsent(tail, ':');
  }
}
