/** Webhook signature check: HMAC-SHA-256 of the raw body under the company's
    webhook secret, rendered as lowercase hex and compared with the header. */
module WebhookSignature {
  import opened Common
  import opened Text

  /** HMAC-SHA-256 keyed by the UTF-8 bytes of a secret string. The
      primitive itself is not modelled: it is a parameter. */
  type Hmac = (string, seq<byte>) -> Bytes32

  /** The check either returns a boolean or throws (`timingSafeEqual` raises
      a `RangeError` on buffers of different byte lengths). */
  datatype Verdict = Returns(valid: bool) | Throws

  /** The hex signature a sender computes for `payload` under `secret`. */
  function ExpectedSignature(hmac: Hmac, secret: string, payload: seq<byte>): (h: string)
    ensures |h| == 64 && IsLowerHex(h)
  {
    HexEncode(hmac(secret, payload))
  }

  /** `verifyWebhookSignature`. An absent raw body (`None`), an empty
      signature or an empty secret is refused outright; an empty body that is
      present is a Buffer, which is truthy, and goes on to the comparison.
      The length pre-check counts UTF-16 code units while the comparison
      counts UTF-8 bytes, so a 64-unit signature with a non-ASCII character
      reaches `timingSafeEqual` with buffers of different sizes and throws. */
  function VerifyWebhookSignature(hmac: Hmac, payload: Option<seq<byte>>, signature: string, secret: string): (v: Verdict)
    ensures v == Returns(true) <==>
      payload.Some? && secret != "" && signature == ExpectedSignature(hmac, secret, payload.value)
    ensures v == Throws <==>
      payload.Some? && signature != "" && secret != "" && Utf16Length(signature) == 64 && !IsAscii(signature)
  {
    if payload.None? || signature == "" || secret == "" then Returns(false)
    else
      var expected := ExpectedSignature(hmac, secret, payload.value);
      LowerHexIsAscii(expected);
      Utf8NotShorter(expected);
      Utf8NotShorter(signature);
      if Utf16Length(signature) != Utf16Length(expected) then Returns(false)
      else
        var given, wanted := Utf8Encode(signature), Utf8Encode(expected);
        if |given| != |wanted| then Throws
        else
          (if given == wanted then AsciiEncodingInjective(signature, expected); Returns(true)
           else Returns(false))
  }

  /** A body altered in transit fails the check against the sender's
      signature, provided the two bodies have different MACs. */
  lemma TamperedPayloadRejected(hmac: Hmac, secret: string, sent: seq<byte>, received: seq<byte>)
    requires hmac(secret, sent) != hmac(secret, received)
    ensures VerifyWebhookSignature(hmac, Some(received), ExpectedSignature(hmac, secret, sent), secret) == Returns(false)
  {
    var sig := ExpectedSignature(hmac, secret, sent);
    if sig == ExpectedSignature(hmac, secret, received) {
      HexEncodeInjective(hmac(secret, sent), hmac(secret, received));
    }
    LowerHexIsAscii(sig);
  }

  /** A signature made with another secret fails, provided the two secrets
      give different MACs on the body. */
  lemma WrongSecretRejected(hmac: Hmac, payload: seq<byte>, signingSecret: string, storedSecret: string)
    requires hmac(signingSecret, payload) != hmac(storedSecret, payload)
    ensures storedSecret != "" ==>
      VerifyWebhookSignature(hmac, Some(payload), ExpectedSignature(hmac, signingSecret, payload), storedSecret) == Returns(false)
  {
    var sig := ExpectedSignature(hmac, signingSecret, payload);
    if sig == ExpectedSignature(hmac, storedSecret, payload) {
      HexEncodeInjective(hmac(signingSecret, payload), hmac(storedSecret, payload));
    }
    LowerHexIsAscii(sig);
  }

  /** The comparison is case-sensitive: the uppercase rendering of a correct
      signature is refused whenever it contains a hex letter. */
  lemma UppercaseSignatureRejected(hmac: Hmac, payload: seq<byte>, secret: string, i: nat)
    requires i < 64 && 'a' <= ExpectedSignature(hmac, secret, payload)[i] <= 'f'
    ensures VerifyWebhookSignature(hmac, Some(payload), ToUpperAscii(ExpectedSignature(hmac, secret, payload)), secret) == Returns(false)
  {
    var sig := ExpectedSignature(hmac, secret, payload);
    var upper := ToUpperAscii(sig);
    assert upper[i] != sig[i];
    assert IsAscii(upper) by {
      forall k | 0 <= k < |upper| ensures upper[k] as int < 0x80 {
        assert IsLowerHexDigit(sig[k]);
      }
    }
  }
}
