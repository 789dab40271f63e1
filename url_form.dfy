/**
 * The submit handler of src/components/UrlForm.tsx: clear the error, reject
 * a blank input, add "https://" when no http(s) scheme is present, reject an
 * invalid URL, then hand the URL to `onSubmit`, whose rejection becomes an
 * error message. The `URL` constructor behind `isValidUrl` and the outcome
 * of `onSubmit` come in as parameters.
 */
module UrlForm {
  import opened Wrappers
  import opened ChromeUtils
  import opened JsText

  const EmptyUrlError := "Please enter a URL"
  const InvalidUrlError := "Please enter a valid URL"
  const SubmitFailedError := "Failed to analyze the URL"

  const HttpScheme := "http://"
  const HttpsScheme := "https://"

  /** `!url.trim()`: nothing is left once surrounding white space is trimmed. */
  predicate IsBlank(url: string) {
    forall i :: 0 <= i < |url| ==> IsJsWhitespace(url[i])
  }

  predicate HasHttpScheme(url: string) {
    HttpScheme <= url || HttpsScheme <= url
  }

  /**
   * The `formattedUrl` rule: "https://" is put in front of a URL that starts
   * with neither scheme (compared case-sensitively); anything else is kept.
   * It looks at the untrimmed input, so surrounding white space is kept too.
   */
  function NormalizeUrl(url: string): (formatted: string)
    ensures HasHttpScheme(formatted)
    ensures HasHttpScheme(url) ==> formatted == url
    ensures !HasHttpScheme(url) ==> |formatted| == |HttpsScheme| + |url| && formatted[|HttpsScheme|..] == url
  {
    if HasHttpScheme(url) then url
    else
      assert HttpsScheme <= HttpsScheme + url;
      HttpsScheme + url
  }

  /** Normalising twice is normalising once. */
  lemma NormalizeUrlIdempotent(url: string)
    ensures NormalizeUrl(NormalizeUrl(url)) == NormalizeUrl(url)
  {
  }

  /** Leading white space is not trimmed away before the scheme is added. */
  lemma NormalizeKeepsWhitespace()
    ensures NormalizeUrl(" example.com") == "https:// example.com"
    ensures !IsBlank(" example.com")
  {
    assert !(HttpScheme <= " example.com");
    assert !(HttpsScheme <= " example.com");
    assert !IsJsWhitespace(" example.com"[1]);
  }

  /** The form: the text typed so far and the error shown under it. */
  class UrlForm {
    var url: string
    var error: string

    constructor ()
      ensures url == "" && error == ""
    {
      url := "";
      error := "";
    }

    /** The input's `onChange`. */
    method SetUrl(value: string)
      modifies this
      ensures url == value && error == old(error)
    {
      url := value;
    }

    /**
     * `handleSubmit`. `parse` stands for the `URL` constructor (the protocol
     * it reads, or `None` where it throws) and `submitRejects` for whether
     * the promise `onSubmit` returns is rejected. The result is the URL handed
     * to `onSubmit`, or `None` when it is not called.
     */
    method HandleSubmit(parse: string -> Option<string>, submitRejects: bool) returns (submitted: Option<string>)
      modifies this`error
      ensures IsBlank(url) ==> error == EmptyUrlError && submitted.None?
      ensures !IsBlank(url) && !IsValidUrl(NormalizeUrl(url), parse) ==> error == InvalidUrlError && submitted.None?
      ensures submitted.Some? <==> !IsBlank(url) && IsValidUrl(NormalizeUrl(url), parse)
      ensures submitted.Some? ==> submitted.value == NormalizeUrl(url) && HasHttpScheme(submitted.value)
      ensures submitted.Some? ==> error == if submitRejects then SubmitFailedError else ""
    {
      error := "";
      if IsBlank(url) {
        error := EmptyUrlError;
        return None;
      }
      var formattedUrl := url;
      if !(HttpScheme <= url) && !(HttpsScheme <= url) {
        formattedUrl := HttpsScheme + url;
      }
      if !IsValidUrl(formattedUrl, parse) {
        error := InvalidUrlError;
        return None;
      }
      submitted := Some(formattedUrl);
      if submitRejects {
        error := SubmitFailedError;
      }
    }
  }

  /**
   * With a `URL` constructor that reads the scheme, a non-blank input is
   * submitted exactly when its normalised form parses.
   */
  lemma SubmittedIffParses(url: string, parse: string -> Option<string>)
    requires ReadsScheme(parse)
    ensures IsValidUrl(NormalizeUrl(url), parse) <==> parse(NormalizeUrl(url)).Some?
  {
    ValidIffParsesWithScheme(NormalizeUrl(url), parse);
  }
}
