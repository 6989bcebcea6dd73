/**
 * `infer_source`: classifies what the user typed as a request for a PDF or
 * a URL source, with or without the path itself.
 */
module SourceInfer {
  import opened Text

  datatype SourceKind = Pdf | Url

  /** The pair `infer_source` returns: the kind, then the path or URL. */
  datatype Inference = Inference(kind: Option<SourceKind>, path: Option<string>)

  /**
   * The rules in order: empty input; the bare keywords `pdf`/`p` and
   * `url`/`u` in any case; a `.pdf` ending in any case; an `http://` or
   * `https://` start, case-sensitive; nothing else. Matching is on the
   * stripped text, and a returned path is the stripped text.
   */
  function InferSource(userInput: string): (r: Inference)
    ensures r.path.Some? ==> r.kind.Some? && r.path.value == Strip(userInput)
    ensures r.kind.None? ==> r.path.None?
    ensures userInput == [] ==> r == Inference(None, None)
  {
    if userInput == [] then Inference(None, None)
    else
      var text := Strip(userInput);
      var low := Lower(text);
      if low == "pdf" || low == "p" then Inference(Some(Pdf), None)
      else if low == "url" || low == "u" then Inference(Some(Url), None)
      else if EndsWith(low, ".pdf") then Inference(Some(Pdf), Some(text))
      else if StartsWith(text, "http://") || StartsWith(text, "https://") then Inference(Some(Url), Some(text))
      else Inference(None, None)
  }

  /** Input made only of whitespace passes the emptiness test but matches no rule. */
  lemma WhitespaceOnly(userInput: string)
    requires AllWhitespace(userInput)
    ensures InferSource(userInput) == Inference(None, None)
  {
    StripEmpty(userInput);
    assert Lower(Strip(userInput)) == [];
  }

  /** The keywords, in any case and with surrounding whitespace, name a kind and no path. */
  lemma Keywords(userInput: string)
    ensures Lower(Strip(userInput)) in {"pdf", "p"} ==> InferSource(userInput) == Inference(Some(Pdf), None)
    ensures Lower(Strip(userInput)) in {"url", "u"} ==> InferSource(userInput) == Inference(Some(Url), None)
  {
  }

  /**
   * The `.pdf` rule comes before the URL rule: text that ends in `.pdf` (any
   * case) and is not a keyword is a PDF path, even when it starts with
   * `https://`.
   */
  lemma PdfSuffixWins(userInput: string)
    requires EndsWith(Lower(Strip(userInput)), ".pdf")
    ensures InferSource(userInput) == Inference(Some(Pdf), Some(Strip(userInput)))
  {
    var low := Lower(Strip(userInput));
    assert |low| >= 4;
    assert userInput != [];
    assert low != "pdf" && low != "p" && low != "url" && low != "u";
  }

  /** Text starting with `http://` or `https://` and not ending in `.pdf` is a URL. */
  lemma UrlScheme(userInput: string)
    requires !EndsWith(Lower(Strip(userInput)), ".pdf")
    requires StartsWith(Strip(userInput), "http://") || StartsWith(Strip(userInput), "https://")
    ensures InferSource(userInput) == Inference(Some(Url), Some(Strip(userInput)))
  {
    var text := Strip(userInput);
    var low := Lower(text);
    assert |text| >= 7 && |low| == |text|;
    assert low != "pdf" && low != "p" && low != "url" && low != "u";
    assert userInput != [];
  }

  /** Text that matches none of the rules classifies as nothing. */
  lemma NoRule(userInput: string)
    requires Lower(Strip(userInput)) !in {"pdf", "p", "url", "u"}
    requires !EndsWith(Lower(Strip(userInput)), ".pdf")
    requires !StartsWith(Strip(userInput), "http://") && !StartsWith(Strip(userInput), "https://")
    ensures InferSource(userInput) == Inference(None, None)
  {
    var low := Lower(Strip(userInput));
    assert low != "pdf" && low != "p" && low != "url" && low != "u";
  }

  /** A text starting with `prefix` starts with `prefix`'s first character. */
  lemma StartsWithHead(s: string, prefix: string)
    ensures StartsWith(s, prefix) && prefix != [] ==> s != [] && s[0] == prefix[0]
  {
    if StartsWith(s, prefix) && prefix != [] {
      assert s[..|prefix|][0] == s[0];
    }
  }

  /** The scheme test is case-sensitive: `HTTP://` or `HTTPS://` text matches no rule. */
  lemma UpperCaseScheme(userInput: string)
    requires !EndsWith(Lower(Strip(userInput)), ".pdf")
    requires StartsWith(Strip(userInput), "HTTP://") || StartsWith(Strip(userInput), "HTTPS://")
    ensures InferSource(userInput) == Inference(None, None)
  {
    var text := Strip(userInput);
    StartsWithHead(text, "HTTP://");
    StartsWithHead(text, "HTTPS://");
    StartsWithHead(text, "http://");
    StartsWithHead(text, "https://");
    assert text[0] == 'H';
    var low := Lower(text);
    assert |low| >= 7;
    assert low != "pdf" && low != "p" && low != "url" && low != "u";
    NoRule(userInput);
  }
}
