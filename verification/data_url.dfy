/**
 The two ad-hoc slices the application takes of a `data:` URL (the form of
 section 3 of RFC 2397, `data:[<mediatype>][;base64],<data>`). They are
 string splits, not a parser: the payload is the second comma-separated
 field and the media type is the first semicolon-separated field of the
 second colon-separated field.
 */
module DataUrl {
  import opened Wrappers
  import opened JsString

  /** `url.split(',')[1]`: the text between the first and the second comma,
      or `undefined` when the URL has no comma. */
  function Payload(url: string): (r: Option<string>)
    ensures r.Some? <==> ',' in url
    ensures r.Some? ==> r.value == Before(After(url, ',').value, ',')
    ensures r.Some? ==> ',' !in r.value
  {
    SplitFirst(url, ',');
    var parts := Split(url, ',');
    if ',' in url then
      SplitFirst(After(url, ',').value, ',');
      assert parts[1] == parts[1..][0];
      At(parts, 1)
    else
      At(parts, 1)
  }

  /** `url.split(':')[1].split(';')[0]`: the text after the first colon up to
      the next semicolon or colon. Without a colon, `split(':')[1]` is
      `undefined` and calling `split` on it throws, modelled as `None`. */
  function MediaType(url: string): (r: Option<string>)
    ensures r.Some? <==> ':' in url
    ensures r.Some? ==> r.value == Before(Before(After(url, ':').value, ':'), ';')
    ensures r.Some? ==> ':' !in r.value && ';' !in r.value
  {
    SplitFirst(url, ':');
    match At(Split(url, ':'), 1)
    case None => None
    case Some(field) =>
      SplitFirst(After(url, ':').value, ':');
      assert Split(url, ':')[1] == Split(url, ':')[1..][0];
      SplitFirst(field, ';');
      assert ':' !in Split(field, ';')[0] by {
        assert Split(field, ';')[0] == Before(field, ';');
        assert Before(field, ';') <= field;
      }
      Some(Split(field, ';')[0])
  }

  /** A media type the slices can recover: a `type/subtype` pair, whose
      tokens cannot contain the separators `:` `;` `,` (section 5.1 of
      RFC 2045 lists them among the tspecials). */
  predicate IsPlainMediaType(m: string) {
    ':' !in m && ';' !in m && ',' !in m
  }

  /** The base64 alphabet of section 4 of RFC 4648, padding included. */
  predicate IsBase64(p: string) {
    forall i :: 0 <= i < |p| ==>
      ('A' <= p[i] <= 'Z') || ('a' <= p[i] <= 'z') || ('0' <= p[i] <= '9')
      || p[i] == '+' || p[i] == '/' || p[i] == '='
  }

  /** The base64 `data:` URL a browser's `readAsDataURL` produces. */
  function Compose(mediaType: string, payload: string): string {
    "data:" + mediaType + ";base64," + payload
  }

  /** The media-type slice recovers the media type `Compose` was given. */
  lemma MediaTypeOfCompose(mediaType: string, payload: string)
    requires IsPlainMediaType(mediaType) && IsBase64(payload)
    ensures MediaType(Compose(mediaType, payload)) == Some(mediaType)
  {
    var rest := "base64," + payload;
    var afterColon := mediaType + [';'] + rest;
    assert ':' !in payload by {
      forall i | 0 <= i < |payload| ensures payload[i] != ':' {}
    }
    assert ':' !in afterColon;
    assert Compose(mediaType, payload) == "data" + [':'] + afterColon;
    BeforeAfterOfFirst("data", ':', afterColon);
    assert Before(afterColon, ':') == afterColon;
    BeforeAfterOfFirst(mediaType, ';', rest);
  }

  /** The payload slice recovers the payload `Compose` was given. */
  lemma PayloadOfCompose(mediaType: string, payload: string)
    requires IsPlainMediaType(mediaType) && IsBase64(payload)
    ensures Payload(Compose(mediaType, payload)) == Some(payload)
  {
    assert ',' !in payload by {
      forall i | 0 <= i < |payload| ensures payload[i] != ',' {}
    }
    var head := "data:" + mediaType + ";base64";
    assert ',' !in head;
    assert Compose(mediaType, payload) == head + [','] + payload;
    BeforeAfterOfFirst(head, ',', payload);
    assert Before(payload, ',') == payload;
  }
}
