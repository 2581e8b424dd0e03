/** Small text steps of preprocessing/promTothread.py: `strip_bullets`,
    which cleans one text item of a converted form, and
    `build_embed_string`, which assembles the text a form is embedded by. */
module PromText {
  import opened Text
  import opened Models

  // ---------------------------------------------------------------------
  // strip_bullets

  /** The leading-marker class of `BULLET_PATTERN`: whitespace, `-`, `*`,
      `>`, and the bullet and dash characters U+2022, U+2023, U+25E6,
      U+2043, U+2219, U+00B7, U+25AA, U+25CF, U+25CB, U+2013, U+2014. */
  predicate IsBullet(c: char) {
    IsSpace(c) || c == '-' || c == '*' || c == '>'
    || c == '•' || c == '‣' || c == '◦' || c == '⁃' || c == '∙'
    || c == '·' || c == '▪' || c == '●' || c == '○' || c == '–' || c == '—'
  }

  /** `strip_bullets(text)`: the leading run of markers removed, then the
      result stripped. What is left starts with neither a marker nor
      whitespace and ends without whitespace. */
  function StripBullets(text: string): (r: string)
    ensures IsStripped(r)
    ensures r == [] || !IsBullet(r[0])
    ensures |r| <= |text|
  {
    var t := LStripBy(text, IsBullet);
    var r := Strip(t);
    StripNoLeadingSpace(t);
    r
  }

  /** Stripping a string that does not start with whitespace only cuts its
      end, so its first character survives. */
  lemma StripNoLeadingSpace(t: string)
    requires t == [] || !IsSpace(t[0])
    ensures Strip(t) == [] || Strip(t)[0] == t[0]
  {
    var u := RStrip(t);
    if u != [] {
      assert u[0] == t[0];
      RunEndIs(u, 0, 0, IsSpace);
    }
  }

  /** Markers followed by an already clean item leave exactly that item. */
  lemma StripBulletsAfterMarkers(markers: string, item: string)
    requires forall k :: 0 <= k < |markers| ==> IsBullet(markers[k])
    requires item == [] || !IsBullet(item[0])
    requires IsStripped(item)
    ensures StripBullets(markers + item) == item
  {
    SpanOf(markers, item, IsBullet);
    assert LStripBy(markers + item, IsBullet) == item;
    StripStripped(item);
  }

  /** Cleaning an item a second time changes nothing. */
  lemma StripBulletsIdempotent(text: string)
    ensures StripBullets(StripBullets(text)) == StripBullets(text)
  {
    var r := StripBullets(text);
    StripBulletsAfterMarkers([], r);
    assert [] + r == r;
  }

  // ---------------------------------------------------------------------
  // build_embed_string

  /** At most the reason's first 600 characters enter the embedding text. */
  const ReasonLimit: nat := 600

  /** `s[:n]`. */
  function Truncate(s: string, n: nat): (r: string)
    ensures |r| <= n && StartsWith(s, r)
    ensures |s| <= n ==> r == s
  {
    if |s| <= n then s else s[..n]
  }

  /** The labelled lines of the embedding text, in order: title, chemical
      or material, reason. A field that is missing or empty contributes no
      line. */
  function EmbedParts(form: PromForm): (parts: seq<string>)
    ensures |parts| <= 3
  {
    (if Truthy(form.requestTitle) then ["Request Title: " + form.requestTitle.value] else [])
    + (if Truthy(form.chemicalsAndProcesses) then ["Chemical or Material: " + form.chemicalsAndProcesses.value] else [])
    + (if Truthy(form.requestReason) then ["Reason for Request: " + Truncate(form.requestReason.value, ReasonLimit)] else [])
  }

  /** `build_embed_string(prom_form)`: collects the labelled lines one field
      at a time and joins them with newlines. The text is empty exactly
      when the form has none of the three fields; otherwise it opens with
      the title line when there is a title and closes with the (truncated)
      reason line when there is a reason. */
  method BuildEmbedString(form: PromForm) returns (text: string)
    ensures text == Join(EmbedParts(form), "\n")
    ensures text == "" <==> !Truthy(form.requestTitle) && !Truthy(form.chemicalsAndProcesses) && !Truthy(form.requestReason)
    ensures Truthy(form.requestTitle) ==> StartsWith(text, "Request Title: " + form.requestTitle.value)
    ensures Truthy(form.requestReason) ==>
      EndsWith(text, "Reason for Request: " + Truncate(form.requestReason.value, ReasonLimit))
  {
    var parts: seq<string> := [];
    if Truthy(form.requestTitle) {
      parts := parts + ["Request Title: " + form.requestTitle.value];
    }
    if Truthy(form.chemicalsAndProcesses) {
      parts := parts + ["Chemical or Material: " + form.chemicalsAndProcesses.value];
    }
    if Truthy(form.requestReason) {
      parts := parts + ["Reason for Request: " + Truncate(form.requestReason.value, ReasonLimit)];
    }
    assert parts == EmbedParts(form);
    text := Join(parts, "\n");
    if |parts| > 0 {
      JoinStartsWith(parts, "\n");
      JoinEndsWith(parts, "\n");
      assert |parts[0]| > 0;
    }
  }
}
