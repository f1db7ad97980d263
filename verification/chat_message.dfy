/**
 * How a system message in the chat is coloured: the classifier that reads its
 * text and picks success, error or warning.
 */
module ChatMessage {
  import opened Text

  datatype Variant = Success | Error | Warning

  /** `getSystemMessageVariant`: lower-case the text, look for success words, then failure words. */
  function SystemVariant(content: string): (r: Variant)
    ensures var l := Lower(content);
      && (r == Success <==> Contains(l, "successfully") || Contains(l, "uploaded successfully") || Contains(l, "completed successfully"))
      && (r == Error <==> r != Success && (Contains(l, "failed") || Contains(l, "error") || Contains(l, "could not")))
  {
    var l := Lower(content);
    if Contains(l, "successfully") || Contains(l, "uploaded successfully") || Contains(l, "completed successfully") then Success
    else if Contains(l, "failed") || Contains(l, "error") || Contains(l, "could not") then Error
    else Warning
  }

  /** The longer success phrases add nothing: the plain word decides success on its own. */
  lemma SuccessWordSuffices(content: string)
    ensures SystemVariant(content) == Success <==> Contains(Lower(content), "successfully")
  {
    var l := Lower(content);
    if Contains(l, "uploaded successfully") {
      assert "uploaded " + "successfully" == "uploaded successfully";
      ContainsPatternSuffix(l, "uploaded ", "successfully");
    }
    if Contains(l, "completed successfully") {
      assert "completed " + "successfully" == "completed successfully";
      ContainsPatternSuffix(l, "completed ", "successfully");
    }
  }

  /** A success word wins over failure words in the same text. */
  lemma SuccessWins(content: string)
    requires Contains(Lower(content), "successfully") && Contains(Lower(content), "failed")
    ensures SystemVariant(content) == Success
  {
  }

  /** Letter case does not matter: upper-casing the text keeps its colour. */
  lemma CaseInsensitive(content: string)
    ensures SystemVariant(Upper(content)) == SystemVariant(content)
  {
    LowerOfUpper(content);
  }

  lemma LowerOfFailurePrefixes()
    ensures Lower("Failed") == "failed" && Lower("Error") == "error"
  {
  }

  /** A text that starts with a failure word is an error unless it also says "successfully". */
  lemma LeadingFailureWord(word: string, rest: string)
    requires word in {"Failed", "Error"}
    ensures SystemVariant(word + rest) == (if Contains(Lower(word + rest), "successfully") then Success else Error)
  {
    LowerOfFailurePrefixes();
    LowerConcat(word, rest);
    SuccessWordSuffices(word + rest);
    assert StartsWith(Lower(word + rest), Lower(word));
  }

  /**
   * The store's system messages, `Failed to upload "…": …` and `Error: …`, are
   * shown as errors unless they say "successfully".
   */
  lemma StoreMessagesAreErrors(filename: string, reason: string, error: string)
    ensures var m := "Failed to upload \"" + filename + "\": " + reason;
      SystemVariant(m) == (if Contains(Lower(m), "successfully") then Success else Error)
    ensures var m := "Error: " + error;
      SystemVariant(m) == (if Contains(Lower(m), "successfully") then Success else Error)
  {
    var m1 := "Failed to upload \"" + filename + "\": " + reason;
    assert m1 == "Failed" + m1[6..];
    LeadingFailureWord("Failed", m1[6..]);
    var m2 := "Error: " + error;
    assert m2 == "Error" + m2[5..];
    LeadingFailureWord("Error", m2[5..]);
  }
}
