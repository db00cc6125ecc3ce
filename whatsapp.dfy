/** The floating WhatsApp button (components/common/WhatsAppButton.tsx): the
    seller's number reduced to its digits and the `wa.me` link built from it. */
module WhatsApp {
  import opened JsString
  import opened JsArray

  /** `SELLER_WHATSAPP` (data/products.ts). */
  const SellerWhatsApp := "+254719352072"

  /** `s.replace(/\D/g, "")`: every character that is not an ASCII digit
      removed. */
  function StripNonDigits(s: string): (r: string)
    ensures |r| <= |s|
    ensures forall i :: 0 <= i < |r| ==> IsDigit(r[i])
  {
    if s == [] then []
    else (if IsDigit(s[0]) then [s[0]] else []) + StripNonDigits(s[1..])
  }

  /** The digit test as a function value. */
  function Digit(): char -> bool {
    c => IsDigit(c)
  }

  /** What is left are the digits of `s`, in their order: the same as
      filtering `s` by the digit test. */
  lemma {:induction false} StripIsFilter(s: string)
    ensures StripNonDigits(s) == Filter(s, Digit())
  {
    if s != [] {
      StripIsFilter(s[1..]);
    }
  }

  /** A string of digits only is left as it is. */
  lemma {:induction false} StripKeepsDigits(s: string)
    requires forall i :: 0 <= i < |s| ==> IsDigit(s[i])
    ensures StripNonDigits(s) == s
  {
    if s != [] {
      StripKeepsDigits(s[1..]);
    }
  }

  /** Stripping twice is stripping once. */
  lemma StripIdempotent(s: string)
    ensures StripNonDigits(StripNonDigits(s)) == StripNonDigits(s)
  {
    StripKeepsDigits(StripNonDigits(s));
  }

  /** Stripping works piece by piece: the digits of `a + b` are those of `a`
      followed by those of `b`. */
  lemma StripConcat(a: string, b: string)
    ensures StripNonDigits(a + b) == StripNonDigits(a) + StripNonDigits(b)
  {
    StripIsFilter(a + b);
    StripIsFilter(a);
    StripIsFilter(b);
    FilterConcat(a, b, Digit());
  }

  /** The link `handleWhatsAppClick` opens, with the URI-encoded message
      passed in. */
  function WhatsAppUrl(number: string, encodedMessage: string): string {
    "https://wa.me/" + StripNonDigits(number) + "?text=" + encodedMessage
  }

  /** A number written as '+' and then digits reduces to those digits. */
  lemma PlusThenDigits(number: string, digits: string)
    requires number == ['+'] + digits
    requires forall i :: 0 <= i < |digits| ==> IsDigit(digits[i])
    ensures StripNonDigits(number) == digits
  {
    StripConcat(['+'], digits);
    StripKeepsDigits(digits);
  }

  /** The seller's number reduces to "254719352072": only the leading '+'
      goes. */
  lemma SellerDigits()
    ensures StripNonDigits(SellerWhatsApp) == "254719352072"
  {
    assert forall i :: 0 <= i < |"254719352072"| ==> IsDigit("254719352072"[i]);
    PlusThenDigits(SellerWhatsApp, "254719352072");
  }

  /** The link is the prefix for the number followed by the message. */
  lemma UrlStartsWith(number: string, prefix: string, encodedMessage: string)
    requires prefix == "https://wa.me/" + StripNonDigits(number) + "?text="
    ensures StartsWith(WhatsAppUrl(number, encodedMessage), prefix)
  {
    assert WhatsAppUrl(number, encodedMessage) == prefix + encodedMessage;
    assert (prefix + encodedMessage)[..|prefix|] == prefix;
  }

  /** Every link the button opens starts with
      "https://wa.me/254719352072?text=". */
  lemma SellerLink(encodedMessage: string)
    ensures StartsWith(WhatsAppUrl(SellerWhatsApp, encodedMessage), "https://wa.me/" + "254719352072" + "?text=")
  {
    SellerDigits();
    UrlStartsWith(SellerWhatsApp, "https://wa.me/" + "254719352072" + "?text=", encodedMessage);
  }
}
