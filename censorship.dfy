/**
 * The censorship service: POST /censor with `{"text": ...}` is accepted
 * (200) unless the lower-cased text contains one of the forbidden words.
 * The word list is not part of the code shown, so it is a parameter.
 */
module Censorship {
  import opened Wrappers
  import opened Strings
  import opened Http

  /** Some forbidden word occurs in the lower-cased text. */
  predicate HasForbiddenWord(text: string, words: seq<string>)
  {
    exists i :: 0 <= i < |words| && Contains(ToLower(text), words[i])
  }

  /** containsForbiddenWords: lower the text once, then test each word in turn and stop at the first hit. */
  method ContainsForbiddenWords(text: string, words: seq<string>) returns (found: bool)
    ensures found <==> HasForbiddenWord(text, words)
  {
    var lowered := ToLower(text);
    var i := 0;
    while i < |words|
      invariant 0 <= i <= |words|
      invariant forall j :: 0 <= j < i ==> !Contains(lowered, words[j])
    {
      if Contains(lowered, words[i]) {
        return true;
      }
      i := i + 1;
    }
    return false;
  }

  /** Only the text is lowered: a word holding an upper-case letter never matches. */
  lemma UpperCaseWordIgnored(text: string, words: seq<string>, w: string, k: int)
    requires 0 <= k < |w| && IsUpper(w[k])
    ensures HasForbiddenWord(text, words + [w]) <==> HasForbiddenWord(text, words)
  {
    UpperNeverInLower(text, w, k);
    var ws := words + [w];
    if HasForbiddenWord(text, ws) {
      var i :| 0 <= i < |ws| && Contains(ToLower(text), ws[i]);
      assert i < |words| && ws[i] == words[i];
    }
    if HasForbiddenWord(text, words) {
      var i :| 0 <= i < |words| && Contains(ToLower(text), words[i]);
      assert ws[i] == words[i];
    }
  }

  /** Adding words can only turn an accepted text into a rejected one, never the reverse. */
  lemma MoreWordsRejectMore(text: string, words: seq<string>, more: seq<string>)
    ensures HasForbiddenWord(text, words) ==> HasForbiddenWord(text, words + more)
    ensures HasForbiddenWord(text, more) ==> HasForbiddenWord(text, words + more)
  {
    var ws := words + more;
    if HasForbiddenWord(text, words) {
      var i :| 0 <= i < |words| && Contains(ToLower(text), words[i]);
      assert ws[i] == words[i];
    }
    if HasForbiddenWord(text, more) {
      var i :| 0 <= i < |more| && Contains(ToLower(text), more[i]);
      assert ws[|words| + i] == more[i];
    }
  }

  /** An empty word in the list rejects every text. */
  lemma EmptyWordRejectsAll(text: string, words: seq<string>)
    requires "" in words
    ensures HasForbiddenWord(text, words)
  {
    ContainsEmpty(ToLower(text));
    var i :| 0 <= i < |words| && words[i] == "";
  }

  /** The JSON value the handler sends; it only ever sends plain-text errors or no body. */
  datatype NoJson = NoJson

  /**
   * CensorHandler, after decoding the body (None: not valid JSON): 400 for
   * a malformed body or a forbidden word, otherwise a bare 200.
   */
  function CensorHandler(decoded: Option<string>, words: seq<string>): (ops: seq<Op<NoJson>>)
    ensures StatusOf(ops) == StatusOK <==> decoded.Some? && !HasForbiddenWord(decoded.value, words)
    ensures StatusOf(ops) != StatusOK ==> StatusOf(ops) == StatusBadRequest
    ensures StatusOf(ops) == StatusOK ==> BodyOf(ops) == []
  {
    match decoded
    case None => Error("Invalid JSON format", StatusBadRequest)
    case Some(text) =>
      if HasForbiddenWord(text, words) then Error("Text contains forbidden words", StatusBadRequest)
      else
        var ops := [WriteHeader(StatusOK)];
        assert ops[1..] == [];
        ops
  }
}
