/**
 * The browser helpers of src/utils/chromeUtils.ts: the mock reachability
 * check, the URL validity check and the placeholder screenshot address.
 * The simulated delays are left out; the `URL` constructor and
 * `encodeURIComponent` are library code and come in as parameters.
 */
module ChromeUtils {
  import opened Wrappers

  /** `sub` occurs in `s` starting at index `i`. */
  predicate OccursAt(s: string, sub: string, i: nat) {
    i + |sub| <= |s| && s[i..i + |sub|] == sub
  }

  /** `s.includes(sub)`: a plain substring test, scanning from the left. */
  function Includes(s: string, sub: string): (found: bool)
    ensures found <==> exists i: nat :: OccursAt(s, sub, i)
    decreases |s|
  {
    if sub <= s then
      assert OccursAt(s, sub, 0);
      true
    else if |s| == 0 then
      assert forall i: nat :: !OccursAt(s, sub, i);
      false
    else
      var rest := Includes(s[1..], sub);
      IncludesStep(s, sub);
      rest
  }

  /** An occurrence past the head of `s` is an occurrence in `s[1..]`, shifted by one. */
  lemma IncludesStep(s: string, sub: string)
    requires |s| > 0 && !(sub <= s)
    ensures (exists i: nat :: OccursAt(s, sub, i)) <==> (exists j: nat :: OccursAt(s[1..], sub, j))
  {
    if i: nat :| OccursAt(s, sub, i) {
      assert i != 0;
      assert s[1..][i - 1..i - 1 + |sub|] == s[i..i + |sub|];
      assert OccursAt(s[1..], sub, i - 1);
    }
    if j: nat :| OccursAt(s[1..], sub, j) {
      assert s[j + 1..j + 1 + |sub|] == s[1..][j..j + |sub|];
      assert OccursAt(s, sub, j + 1);
    }
  }

  /**
   * `isUrlAccessible`: the mock verdict is false exactly when the URL contains
   * "notfound" or "error" anywhere.
   */
  function IsUrlAccessible(url: string): (accessible: bool)
    ensures !accessible <==> (exists i: nat :: OccursAt(url, "notfound", i)) || (exists i: nat :: OccursAt(url, "error", i))
  {
    !Includes(url, "notfound") && !Includes(url, "error")
  }

  /** The substring test also rejects a host that merely contains "error". */
  lemma TerrorHostRejected()
    ensures !IsUrlAccessible("https://terror.example")
  {
    var url := "https://terror.example";
    assert url[9..14] == "error";
    assert OccursAt(url, "error", 9);
  }

  /**
   * The properties of the `URL` constructor the form relies on: a string it
   * accepts that starts with "http://" has protocol "http:", and one that
   * starts with "https://" has protocol "https:". `parse` returns the
   * `protocol` of the parsed URL, or `None` where the constructor throws.
   */
  ghost predicate ReadsScheme(parse: string -> Option<string>) {
    && (forall s :: "http://" <= s && parse(s).Some? ==> parse(s).value == "http:")
    && (forall s :: "https://" <= s && parse(s).Some? ==> parse(s).value == "https:")
  }

  /**
   * `isValidUrl`: the URL parses and its protocol is exactly "http:" or
   * "https:". A parse failure is caught and gives false.
   */
  function IsValidUrl(url: string, parse: string -> Option<string>): (valid: bool)
    ensures valid ==> parse(url).Some?
    ensures parse(url).None? ==> !valid
    ensures valid <==> parse(url) == Some("http:") || parse(url) == Some("https:")
  {
    match parse(url)
    case None => false
    case Some(protocol) => protocol == "http:" || protocol == "https:"
  }

  /** With a parser that reads the scheme, a URL with an explicit http(s) scheme is valid exactly when it parses. */
  lemma ValidIffParsesWithScheme(url: string, parse: string -> Option<string>)
    requires ReadsScheme(parse)
    requires "http://" <= url || "https://" <= url
    ensures IsValidUrl(url, parse) <==> parse(url).Some?
  {
  }

  const PlaceholderPrefix := "https://placehold.co/800x600/18181b/f8fafc?text=Screenshot+of+"

  /**
   * `captureScreenshot`: the placeholder image address for a URL, given
   * `encodeURIComponent` as `encode`. The address ends with the encoded URL
   * after a fixed prefix, so it determines the encoded URL.
   */
  function CaptureScreenshot(url: string, encode: string -> string): (address: string)
    ensures PlaceholderPrefix <= address
    ensures address[|PlaceholderPrefix|..] == encode(url)
  {
    PlaceholderPrefix + encode(url)
  }

  /** Two URLs with the same screenshot address have the same encoding. */
  lemma ScreenshotDeterminesEncodedUrl(u1: string, u2: string, encode: string -> string)
    requires CaptureScreenshot(u1, encode) == CaptureScreenshot(u2, encode)
    ensures encode(u1) == encode(u2)
  {
    calc {
      encode(u1);
      CaptureScreenshot(u1, encode)[|PlaceholderPrefix|..];
      CaptureScreenshot(u2, encode)[|PlaceholderPrefix|..];
      encode(u2);
    }
  }
}
