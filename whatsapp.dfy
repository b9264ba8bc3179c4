/**
 * The floating WhatsApp button (src/components/WhatsAppButton.tsx) and its
 * configuration (src/lib/whatsappConfig.ts): the phone number is reduced to its
 * digits and put into a wa.me link with the URL-encoded message. The encoder,
 * `encodeURIComponent`, is a parameter.
 */
module WhatsApp {
  import opened Wrappers
  import Seqs
  import Text

  /** The button's own default message, used when none is passed. */
  const ButtonDefaultMessage := "مرحباً، أنا مهتم بخدماتكم"

  const ConfigPhoneNumber := "+966500000000"
  const ConfigDefaultMessage := "مرحباً، أنا مهتم بالسيارات المعروضة في سوق السيارات"

  const UrlPrefix := "https://wa.me/"
  const TextParameter := "?text="

  function DigitTest(): char -> bool {
    (c: char) => Text.IsDigit(c)
  }

  /** `phoneNumber.replace(/\D/g, '')`: the digits, in order. */
  function CleanNumber(phone: string): (r: string)
    ensures Text.AllDigits(r)
    ensures |r| <= |phone|
  {
    Seqs.Filter(phone, DigitTest())
  }

  /** Cleaning keeps exactly the digits, in their order, and cleaning again changes nothing. */
  lemma CleanNumberKeepsDigits(phone: string)
    ensures Seqs.Subsequence(CleanNumber(phone), phone)
    ensures forall c :: c in CleanNumber(phone) <==> c in phone && Text.IsDigit(c)
    ensures forall c :: Text.IsDigit(c) ==> multiset(CleanNumber(phone))[c] == multiset(phone)[c]
    ensures CleanNumber(CleanNumber(phone)) == CleanNumber(phone)
  {
    Seqs.FilterIsSubsequence(phone, DigitTest());
    Seqs.FilterMembers(phone, DigitTest());
    Seqs.FilterMultiset(phone, DigitTest());
    Seqs.FilterKeepsAll(CleanNumber(phone), DigitTest());
  }

  /** A string of digits is already clean. */
  lemma CleanNumberOfDigits(s: string)
    requires Text.AllDigits(s)
    ensures CleanNumber(s) == s
  {
    Seqs.FilterKeepsAll(s, DigitTest());
  }

  /** A leading non-digit is dropped. */
  lemma CleanNumberDropsNonDigit(s: string)
    requires s != [] && !Text.IsDigit(s[0])
    ensures CleanNumber(s) == CleanNumber(s[1..])
  {
  }

  lemma ConfigPhoneNumberDigits()
    ensures ConfigPhoneNumber[0] == '+'
    ensures ConfigPhoneNumber[1..] == "966500000000" && Text.AllDigits(ConfigPhoneNumber[1..])
  {
  }

  /** The configured number loses its leading '+'. */
  lemma ConfiguredNumberCleans()
    ensures CleanNumber(ConfigPhoneNumber) == "966500000000"
  {
    ConfigPhoneNumberDigits();
    CleanNumberDropsNonDigit(ConfigPhoneNumber);
    CleanNumberOfDigits(ConfigPhoneNumber[1..]);
  }

  /** `message = ...` in the parameter list: the default replaces an absent message. */
  function MessageOrDefault(message: Option<string>): string {
    message.GetOr(ButtonDefaultMessage)
  }

  /** The link `handleClick` opens. */
  function ChatUrl(phone: string, message: Option<string>, encode: string -> string): (r: string)
    ensures Text.StartsWith(r, UrlPrefix)
    ensures Text.OccursAt(r, CleanNumber(phone), |UrlPrefix|)
    ensures Text.OccursAt(r, TextParameter, |UrlPrefix| + |CleanNumber(phone)|)
    ensures r[|UrlPrefix| + |CleanNumber(phone)| + |TextParameter|..] == encode(MessageOrDefault(message))
  {
    UrlPrefix + CleanNumber(phone) + TextParameter + encode(MessageOrDefault(message))
  }

  /**
   * The number ends at the first '?' of the link: neither the prefix nor a digit is
   * a '?', so the number can be read back from the link whatever the message.
   */
  lemma NumberEndsAtFirstQuestionMark(phone: string, message: Option<string>, encode: string -> string)
    ensures forall i :: 0 <= i < |UrlPrefix| + |CleanNumber(phone)| ==> ChatUrl(phone, message, encode)[i] != '?'
    ensures ChatUrl(phone, message, encode)[|UrlPrefix| + |CleanNumber(phone)|] == '?'
    ensures ChatUrl(phone, message, encode)[|UrlPrefix|..|UrlPrefix| + |CleanNumber(phone)|] == CleanNumber(phone)
  {
    var url := ChatUrl(phone, message, encode);
    var clean := CleanNumber(phone);
    forall i | 0 <= i < |UrlPrefix| + |clean|
      ensures url[i] != '?'
    {
      if i < |UrlPrefix| {
        assert url[i] == UrlPrefix[i];
      } else {
        assert url[i] == clean[i - |UrlPrefix|];
      }
    }
  }

  /** The layout's button: the configured number, digits only, before the configured message. */
  lemma ConfiguredChatUrl(encode: string -> string)
    ensures ChatUrl(ConfigPhoneNumber, Some(ConfigDefaultMessage), encode)
      == UrlPrefix + "966500000000" + TextParameter + encode(ConfigDefaultMessage)
  {
    ConfiguredNumberCleans();
  }

  /** `getCarWhatsAppMessage`: the message naming one car, title first, then its id. */
  function CarMessage(carTitle: string, carId: string): (r: string)
    ensures Text.OccursAt(r, carTitle, |"مرحباً، أنا مهتم بالسيارة: "|)
    ensures Text.OccursAt(r, carId, |"مرحباً، أنا مهتم بالسيارة: "| + |carTitle| + |" (معرف: "|)
    ensures |r| == |"مرحباً، أنا مهتم بالسيارة: "| + |carTitle| + |" (معرف: "| + |carId| + 1
  {
    "مرحباً، أنا مهتم بالسيارة: " + carTitle + " (معرف: " + carId + ")"
  }
}
