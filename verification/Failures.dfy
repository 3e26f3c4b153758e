/** Classifying error messages (src/robot_dh/inference/failures.py, lines 38-54). */
module Failures {
  import LakeUri

  const UNAVAILABLE := "OPENAI_ENDPOINT_UNAVAILABLE"
  const TIMEOUT := "OPENAI_TIMEOUT"
  const BAD_RESPONSE := "OPENAI_BAD_RESPONSE"
  const UNKNOWN := "UNKNOWN"
  const PREDICTION_ERROR := "PREDICTION_ERROR"

  /** The text before the first colon. */
  function BeforeColon(s: string): string {
    if s == "" || s[0] == ':' then "" else [s[0]] + BeforeColon(s[1..])
  }

  function ErrorHead(message: string): string { LakeUri.Strip(BeforeColon(message), LakeUri.IsSpace) }

  /** `head.replace("_", "").isalnum()`; `alnum` is the character class. */
  predicate IsWord(alnum: char -> bool, head: string) {
    (exists i :: 0 <= i < |head| && head[i] != '_') &&
    forall i :: 0 <= i < |head| && head[i] != '_' ==> alnum(head[i])
  }

  /** classify_error. */
  function ErrorType(alnum: char -> bool, message: string): string {
    if message == "" then UNKNOWN
    else
      var head := ErrorHead(message);
      if head in [UNAVAILABLE, TIMEOUT, BAD_RESPONSE] then head
      else if IsWord(alnum, head) then head
      else PREDICTION_ERROR
  }

  /** is_retryable. */
  predicate IsRetryable(errorType: string) { errorType in [TIMEOUT, UNAVAILABLE, UNKNOWN] }

  /** A bare known type is recognised as itself. */
  lemma KnownIsItself(alnum: char -> bool, m: string)
    requires m in [UNAVAILABLE, TIMEOUT, BAD_RESPONSE] && m != "" && ':' !in m
    requires !LakeUri.IsSpace(m[0]) && !LakeUri.IsSpace(m[|m| - 1])
    ensures ErrorType(alnum, m) == m
  {
    NoColon(m);
    LakeUri.StripSolid(m, LakeUri.IsSpace);
  }

  lemma KnownLengths()
    ensures |BAD_RESPONSE| == 19 && |TIMEOUT| == 14 && |UNAVAILABLE| == 27 && |UNKNOWN| == 7
  {}

  lemma BadResponseText()
    ensures ':' !in BAD_RESPONSE && BAD_RESPONSE[0] == 'O' && BAD_RESPONSE[18] == 'E'
  {}

  /** A contract violation is recognised and not retryable. */
  lemma BadResponseIsFinal(alnum: char -> bool)
    ensures ErrorType(alnum, BAD_RESPONSE) == BAD_RESPONSE && !IsRetryable(BAD_RESPONSE)
  {
    KnownLengths();
    BadResponseText();
    KnownIsItself(alnum, BAD_RESPONSE);
  }

  lemma {:induction false} NoColon(s: string)
    requires ':' !in s
    ensures BeforeColon(s) == s
  {
    if s != "" {
      NoColon(s[1..]);
      assert s == [s[0]] + s[1..];
    }
  }

  /** Classification looks at nothing but the head of the message, and no message gets
      an empty type. */
  lemma RetryableHeads(alnum: char -> bool, message: string)
    requires forall c :: 'A' <= c <= 'Z' ==> alnum(c)
    ensures IsRetryable(ErrorType(alnum, message)) <==>
      message == "" || ErrorHead(message) in [TIMEOUT, UNAVAILABLE, UNKNOWN]
    ensures ErrorType(alnum, message) != ""
  {
    assert UNKNOWN[0] == 'U';
    assert TIMEOUT != PREDICTION_ERROR && UNAVAILABLE != PREDICTION_ERROR && UNKNOWN != PREDICTION_ERROR by {
      assert |TIMEOUT| == 14 && |UNAVAILABLE| == 27 && |UNKNOWN| == 7 && |PREDICTION_ERROR| == 16;
    }
  }

  /** The head of a message is what stands before its first colon, without outer spaces. */
  lemma {:induction false} HeadMeans(before: string, rest: string)
    requires ':' !in before
    ensures BeforeColon(before) == before && BeforeColon(before + ":" + rest) == before
  {
    if before != "" {
      HeadMeans(before[1..], rest);
      assert (before + ":" + rest)[1..] == before[1..] + ":" + rest;
      assert before == [before[0]] + before[1..];
    }
  }

  /** A head of letters, digits and underscores is the type, known or not; any other head
      that is not known is a prediction error. */
  lemma TypeMeans(alnum: char -> bool, message: string)
    requires message != ""
    ensures var head, type_ := ErrorHead(message), ErrorType(alnum, message);
      if head == UNAVAILABLE || head == TIMEOUT || head == BAD_RESPONSE then type_ == head
      else if (forall i :: 0 <= i < |head| ==> head[i] == '_' || alnum(head[i])) &&
              (exists i :: 0 <= i < |head| && head[i] != '_') then type_ == head
      else type_ == PREDICTION_ERROR
  {}
}
