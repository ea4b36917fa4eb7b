/**
 * Text normalisation for chat messages arriving from the external messaging
 * integration (src/lib/chatwork-utils.ts): resident-name canonicalisation,
 * timestamp normalisation to a fixed +09:00 offset, and keyword categorisation.
 */
module ChatworkUtils {
  import opened Wrappers
  import opened JsText

  /*
   * ---------------------------------------------------------------------------
   * Name normalisation
   * ---------------------------------------------------------------------------
   */

  /** A string function that maps the empty string to itself. */
  type EmptyPreserving = f: string -> string | f("") == "" witness (s: string) => s

  /**
   * Unicode canonical composition (`String.prototype.normalize("NFC")`).
   * It is a library routine whose tables are not part of this model, so it is
   * left uninterpreted: all the model knows is that it maps "" to "".
   */
  const Nfc: EmptyPreserving

  /** The half-width katakana block the second pass rewrites. */
  predicate IsHalfWidthKatakana(c: char) {
    '\U{FF66}' <= c <= '\U{FF9F}'
  }

  /**
   * The `halfToFull` lookup table: half-width katakana to full-width katakana, one case
   * per entry, `None` for a character that is not a key. The voiced sound marks map to
   * the spacing marks U+309B and U+309C, not to combining marks.
   */
  function HalfToFull(c: char): Option<char> {
    match c
    case '\U{FF66}' => Some('\U{30F2}')
    case '\U{FF67}' => Some('\U{30A1}')
    case '\U{FF68}' => Some('\U{30A3}')
    case '\U{FF69}' => Some('\U{30A5}')
    case '\U{FF6A}' => Some('\U{30A7}')
    case '\U{FF6B}' => Some('\U{30A9}')
    case '\U{FF6C}' => Some('\U{30E3}')
    case '\U{FF6D}' => Some('\U{30E5}')
    case '\U{FF6E}' => Some('\U{30E7}')
    case '\U{FF6F}' => Some('\U{30C3}')
    case '\U{FF70}' => Some('\U{30FC}')
    case '\U{FF71}' => Some('\U{30A2}')
    case '\U{FF72}' => Some('\U{30A4}')
    case '\U{FF73}' => Some('\U{30A6}')
    case '\U{FF74}' => Some('\U{30A8}')
    case '\U{FF75}' => Some('\U{30AA}')
    case '\U{FF76}' => Some('\U{30AB}')
    case '\U{FF77}' => Some('\U{30AD}')
    case '\U{FF78}' => Some('\U{30AF}')
    case '\U{FF79}' => Some('\U{30B1}')
    case '\U{FF7A}' => Some('\U{30B3}')
    case '\U{FF7B}' => Some('\U{30B5}')
    case '\U{FF7C}' => Some('\U{30B7}')
    case '\U{FF7D}' => Some('\U{30B9}')
    case '\U{FF7E}' => Some('\U{30BB}')
    case '\U{FF7F}' => Some('\U{30BD}')
    case '\U{FF80}' => Some('\U{30BF}')
    case '\U{FF81}' => Some('\U{30C1}')
    case '\U{FF82}' => Some('\U{30C4}')
    case '\U{FF83}' => Some('\U{30C6}')
    case '\U{FF84}' => Some('\U{30C8}')
    case '\U{FF85}' => Some('\U{30CA}')
    case '\U{FF86}' => Some('\U{30CB}')
    case '\U{FF87}' => Some('\U{30CC}')
    case '\U{FF88}' => Some('\U{30CD}')
    case '\U{FF89}' => Some('\U{30CE}')
    case '\U{FF8A}' => Some('\U{30CF}')
    case '\U{FF8B}' => Some('\U{30D2}')
    case '\U{FF8C}' => Some('\U{30D5}')
    case '\U{FF8D}' => Some('\U{30D8}')
    case '\U{FF8E}' => Some('\U{30DB}')
    case '\U{FF8F}' => Some('\U{30DE}')
    case '\U{FF90}' => Some('\U{30DF}')
    case '\U{FF91}' => Some('\U{30E0}')
    case '\U{FF92}' => Some('\U{30E1}')
    case '\U{FF93}' => Some('\U{30E2}')
    case '\U{FF94}' => Some('\U{30E4}')
    case '\U{FF95}' => Some('\U{30E6}')
    case '\U{FF96}' => Some('\U{30E8}')
    case '\U{FF97}' => Some('\U{30E9}')
    case '\U{FF98}' => Some('\U{30EA}')
    case '\U{FF99}' => Some('\U{30EB}')
    case '\U{FF9A}' => Some('\U{30EC}')
    case '\U{FF9B}' => Some('\U{30ED}')
    case '\U{FF9C}' => Some('\U{30EF}')
    case '\U{FF9D}' => Some('\U{30F3}')
    case '\U{FF9E}' => Some('\U{309B}')
    case '\U{FF9F}' => Some('\U{309C}')
    case _ => None
  }

  /** The archaic katakana ヰ and ヱ and their modern replacements イ and エ. */
  const ArchaicWi: char := '\U{30F0}'
  const ArchaicWe: char := '\U{30F1}'
  const ModernI: char := '\U{30A4}'
  const ModernE: char := '\U{30A8}'

  /** The CJK compatibility block U+FA00–U+FAFF the fourth pass looks at. */
  predicate IsCjkCompatibility(c: char) {
    '\U{FA00}' <= c <= '\U{FAFF}'
  }

  /**
   * The `cjkVariants` lookup table, keyed by strings. The last key is written in the
   * source as the escape sequence for U+2F80 followed by the digit 4: a two-character string.
   */
  function CjkVariants(key: string): Option<string> {
    match key
    case "\U{FA11}" => Some("\U{5D0E}")
    case "\U{FA10}" => Some("\U{585A}")
    case "\U{FA12}" => Some("\U{6075}")
    case "\U{FA15}" => Some("\U{6D3B}")
    case "\U{FA19}" => Some("\U{7965}")
    case "\U{FA1A}" => Some("\U{7E41}")
    case "\U{FA1B}" => Some("\U{8077}")
    case "\U{FA1C}" => Some("\U{82A6}")
    case "\U{FA1D}" => Some("\U{9038}")
    case "\U{FA1E}" => Some("\U{905E}")
    case "\U{FA67}" => Some("\U{5C71}")
    case "\U{2F80}4" => Some("\U{5C71}")
    case _ => None
  }

  /** Callback of the first pass: delete `\s` and U+3000. */
  function DropWhitespace(c: char): string {
    if IsJsWhitespace(c) || c == '\U{3000}' then "" else [c]
  }

  /** The character the second pass's callback returns: `halfToFull[c] ?? c` on the half-width block. */
  function FullWidthOf(c: char): char {
    if IsHalfWidthKatakana(c) then HalfToFull(c).GetOr(c) else c
  }

  function ToFullWidth(c: char): string {
    [FullWidthOf(c)]
  }

  /** Callback of the fourth pass: `cjkVariants[c] ?? c` on the compatibility block. */
  function CjkVariant(c: char): string {
    if IsCjkCompatibility(c) then CjkVariants([c]).GetOr([c]) else [c]
  }

  /** The four replace passes of the normaliser, in source order, before the final NFC step. */
  function CanonicalBeforeNfc(name: string): string {
    var noSpace := ReplaceEach(name, DropWhitespace);
    var fullWidth := ReplaceEach(noSpace, ToFullWidth);
    var modernE := ReplaceChar(fullWidth, ArchaicWe, ModernE);
    var modern := ReplaceChar(modernE, ArchaicWi, ModernI);
    ReplaceEach(modern, CjkVariant)
  }

  /** Every pass maps the empty string to itself, and the first one deletes all whitespace. */
  lemma {:induction false} CanonicalBeforeNfcBlank(s: string)
    ensures IsBlank(s) ==> CanonicalBeforeNfc(s) == ""
  {
    if s != [] && IsBlank(s) {
      CanonicalBeforeNfcBlank(s[1..]);
      assert s == [s[0]] + s[1..];
      CanonicalBeforeNfcConcat([s[0]], s[1..]);
      CanonicalBeforeNfcSingle(s[0]);
    }
  }

  /** The canonical name key of a resident name. */
  function NormalizeName(name: string): (r: string)
    ensures name == "" ==> r == ""
    ensures IsBlank(name) ==> r == ""
  {
    CanonicalBeforeNfcBlank(name);
    if name == "" then "" else Nfc(CanonicalBeforeNfc(name))
  }

  /*
   * A reference definition: what the four passes do to one character.
   */

  function Modernize(c: char): char {
    if c == ArchaicWe then ModernE else if c == ArchaicWi then ModernI else c
  }

  function CanonicalChar(c: char): string {
    if IsJsWhitespace(c) then "" else CjkVariant(Modernize(FullWidthOf(c)))
  }

  /** A character none of the passes touches (a compatibility ideograph without a table entry is kept). */
  predicate IsPlain(c: char) {
    && !IsJsWhitespace(c)
    && !IsHalfWidthKatakana(c)
    && c != ArchaicWe && c != ArchaicWi
    && !(IsCjkCompatibility(c) && CjkVariants([c]).Some?)
  }

  lemma ReplaceCharConcat(a: string, b: string, from: char, to: char)
    ensures ReplaceChar(a + b, from, to) == ReplaceChar(a, from, to) + ReplaceChar(b, from, to)
  {
    var l := ReplaceChar(a + b, from, to);
    var r := ReplaceChar(a, from, to) + ReplaceChar(b, from, to);
    assert |l| == |r|;
    forall i | 0 <= i < |l| ensures l[i] == r[i] {
      if i < |a| { assert (a + b)[i] == a[i]; } else { assert (a + b)[i] == b[i - |a|]; }
    }
  }

  /** The passes work character by character, so they distribute over concatenation. */
  lemma CanonicalBeforeNfcConcat(a: string, b: string)
    ensures CanonicalBeforeNfc(a + b) == CanonicalBeforeNfc(a) + CanonicalBeforeNfc(b)
  {
    ReplaceEachConcat(a, b, DropWhitespace);
    var a1, b1 := ReplaceEach(a, DropWhitespace), ReplaceEach(b, DropWhitespace);
    ReplaceEachConcat(a1, b1, ToFullWidth);
    var a2, b2 := ReplaceEach(a1, ToFullWidth), ReplaceEach(b1, ToFullWidth);
    ReplaceCharConcat(a2, b2, ArchaicWe, ModernE);
    var a3, b3 := ReplaceChar(a2, ArchaicWe, ModernE), ReplaceChar(b2, ArchaicWe, ModernE);
    ReplaceCharConcat(a3, b3, ArchaicWi, ModernI);
    var a4, b4 := ReplaceChar(a3, ArchaicWi, ModernI), ReplaceChar(b3, ArchaicWi, ModernI);
    ReplaceEachConcat(a4, b4, CjkVariant);
  }

  /** On a single character the passes compute the reference `CanonicalChar`. */
  lemma CanonicalBeforeNfcSingle(c: char)
    ensures CanonicalBeforeNfc([c]) == CanonicalChar(c)
  {
    ReplaceEachSingle(c, DropWhitespace);
    if !IsJsWhitespace(c) {
      ReplaceEachSingle(c, ToFullWidth);
      var m := Modernize(FullWidthOf(c));
      assert ReplaceChar(ReplaceChar([FullWidthOf(c)], ArchaicWe, ModernE), ArchaicWi, ModernI) == [m];
      ReplaceEachSingle(m, CjkVariant);
    }
  }

  /** The four passes together replace each character `c` by `CanonicalChar(c)`, in order. */
  lemma {:induction false} CanonicalBeforeNfcPerChar(s: string)
    ensures CanonicalBeforeNfc(s) == ReplaceEach(s, CanonicalChar)
  {
    if s != [] {
      assert s == [s[0]] + s[1..];
      CanonicalBeforeNfcConcat([s[0]], s[1..]);
      CanonicalBeforeNfcSingle(s[0]);
      CanonicalBeforeNfcPerChar(s[1..]);
    }
  }

  /** A full-width katakana or spacing voiced mark other than the archaic ヰ and ヱ. */
  predicate IsModernFullWidth(x: char) {
    '\U{309B}' <= x <= '\U{30FC}' && x != ArchaicWe && x != ArchaicWi
  }

  /**
   * The half-width table has an entry for exactly the 58 code points U+FF66–U+FF9F,
   * and every entry is a modern full-width character.
   */
  lemma HalfToFullCoversBlock(c: char)
    ensures HalfToFull(c).Some? <==> IsHalfWidthKatakana(c)
    ensures HalfToFull(c).Some? ==> IsModernFullWidth(HalfToFull(c).value)
  {
  }

  /** Every variant a compatibility ideograph can be rewritten to is one plain character. */
  lemma CjkVariantOutputs(k: string)
    requires CjkVariants(k).Some?
    ensures |CjkVariants(k).value| == 1 && IsPlain(CjkVariants(k).value[0])
  {
  }

  /** Whatever a character becomes consists of plain characters. */
  lemma CanonicalCharIsPlain(c: char, x: char)
    requires x in CanonicalChar(c)
    ensures IsPlain(x)
  {
    if !IsJsWhitespace(c) {
      var f := FullWidthOf(c);
      HalfToFullCoversBlock(c);
      var m := Modernize(f);
      if IsCjkCompatibility(m) && CjkVariants([m]).Some? {
        CjkVariantOutputs([m]);
      }
    }
  }

  /** A plain character is left as it is. */
  lemma PlainCharUnchanged(c: char)
    requires IsPlain(c)
    ensures CanonicalChar(c) == [c]
  {
  }

  /** Characters of the normalised name before NFC are all plain. */
  lemma CanonicalBeforeNfcIsPlain(s: string, i: int)
    requires 0 <= i < |CanonicalBeforeNfc(s)|
    ensures IsPlain(CanonicalBeforeNfc(s)[i])
  {
    CanonicalBeforeNfcPerChar(s);
    var x := CanonicalBeforeNfc(s)[i];
    ReplaceEachOrigin(s, CanonicalChar, x);
    var j :| 0 <= j < |s| && x in CanonicalChar(s[j]);
    CanonicalCharIsPlain(s[j], x);
  }

  /**
   * Before NFC the name holds no `\s` whitespace and no half-width katakana:
   * the first pass removes all whitespace and no later pass introduces any.
   */
  lemma NoWhitespaceOrHalfWidthBeforeNfc(s: string)
    ensures forall i :: 0 <= i < |CanonicalBeforeNfc(s)| ==>
      !IsJsWhitespace(CanonicalBeforeNfc(s)[i]) && !IsHalfWidthKatakana(CanonicalBeforeNfc(s)[i])
  {
    forall i | 0 <= i < |CanonicalBeforeNfc(s)|
      ensures !IsJsWhitespace(CanonicalBeforeNfc(s)[i]) && !IsHalfWidthKatakana(CanonicalBeforeNfc(s)[i])
    {
      CanonicalBeforeNfcIsPlain(s, i);
    }
  }

  /** A name made only of plain characters passes through the four passes unchanged. */
  lemma PlainNameUnchanged(s: string)
    requires forall i :: 0 <= i < |s| ==> IsPlain(s[i])
    ensures CanonicalBeforeNfc(s) == s
  {
    CanonicalBeforeNfcPerChar(s);
    forall i | 0 <= i < |s| ensures CanonicalChar(s[i]) == [s[i]] {
      PlainCharUnchanged(s[i]);
    }
    ReplaceEachIdentity(s, CanonicalChar);
  }

  /** The passes before NFC are idempotent: their output is a fixed point. */
  lemma CanonicalBeforeNfcIdempotent(s: string)
    ensures CanonicalBeforeNfc(CanonicalBeforeNfc(s)) == CanonicalBeforeNfc(s)
  {
    var t := CanonicalBeforeNfc(s);
    forall i | 0 <= i < |t| ensures IsPlain(t[i]) {
      CanonicalBeforeNfcIsPlain(s, i);
    }
    PlainNameUnchanged(t);
  }

  /**
   * A half-width katakana character is replaced by its table entry, ヱ by エ and ヰ by イ,
   * wherever they occur in the name; the text around them is treated independently.
   */
  lemma ReplacedInContext(a: string, c: char, b: string)
    requires IsHalfWidthKatakana(c) || c == ArchaicWe || c == ArchaicWi
    ensures IsHalfWidthKatakana(c) ==>
      (HalfToFull(c).Some? &&
       CanonicalBeforeNfc(a + [c] + b) == CanonicalBeforeNfc(a) + [HalfToFull(c).value] + CanonicalBeforeNfc(b))
    ensures c == ArchaicWe ==> CanonicalBeforeNfc(a + [c] + b) == CanonicalBeforeNfc(a) + [ModernE] + CanonicalBeforeNfc(b)
    ensures c == ArchaicWi ==> CanonicalBeforeNfc(a + [c] + b) == CanonicalBeforeNfc(a) + [ModernI] + CanonicalBeforeNfc(b)
  {
    CanonicalBeforeNfcConcat(a + [c], b);
    CanonicalBeforeNfcConcat(a, [c]);
    CanonicalBeforeNfcSingle(c);
    HalfToFullCoversBlock(c);
  }

  /**
   * A compatibility ideograph is rewritten (to its table entry) exactly when it is a key
   * of the variant table; otherwise it is kept.
   */
  lemma CjkRewrittenIffKey(c: char)
    requires IsCjkCompatibility(c)
    ensures CanonicalBeforeNfc([c]) != [c] <==> CjkVariants([c]).Some?
    ensures CjkVariants([c]).Some? ==> CanonicalBeforeNfc([c]) == CjkVariants([c]).value
  {
    CanonicalBeforeNfcSingle(c);
    if CjkVariants([c]).Some? {
      CjkVariantOutputs([c]);
    }
  }

  /**
   * The variant table's targets are its own choice, not the canonical decompositions:
   * 神 written as U+FA19 becomes 祥 (U+7965), U+FA12 becomes U+6075 and U+FA67 becomes 山.
   */
  lemma VariantTargetsExample()
    ensures CanonicalBeforeNfc("\U{FA19}") == "\U{7965}"
    ensures CanonicalBeforeNfc("\U{FA12}") == "\U{6075}"
    ensures CanonicalBeforeNfc("\U{FA67}") == "\U{5C71}"
  {
    CanonicalBeforeNfcSingle('\U{FA19}');
    CanonicalBeforeNfcSingle('\U{FA12}');
    CanonicalBeforeNfcSingle('\U{FA67}');
  }

  /**
   * The two-character key of the variant table is never looked up, since the lookup is
   * by one character: U+FA67 is the only character the table turns into 山 (U+5C71),
   * and the supplementary ideograph U+2F804 passes through unchanged.
   */
  lemma TwoCharKeyUnreachable(c: char)
    ensures CjkVariants("\U{2F80}4") == Some("\U{5C71}")
    ensures CjkVariant(c) == "\U{5C71}" ==> c == '\U{FA67}' || c == '\U{5C71}'
    ensures CanonicalBeforeNfc("\U{2F804}") == "\U{2F804}"
  {
    CanonicalBeforeNfcSingle('\U{2F804}');
  }

  /** Example: ﾃｽﾄ becomes テスト. */
  lemma HalfWidthExample()
    ensures CanonicalBeforeNfc("\U{FF83}\U{FF7D}\U{FF84}") == "\U{30C6}\U{30B9}\U{30C8}"
  {
    var s := "\U{FF83}\U{FF7D}\U{FF84}";
    CanonicalBeforeNfcPerChar(s);
    assert s[1..] == "\U{FF7D}\U{FF84}" && s[1..][1..] == "\U{FF84}";
  }

  /**
   * Normalisation ignores spaces: a name with a half-width space, one with an
   * ideographic space U+3000 and one with no space at all get the same key.
   */
  lemma NormalizeIgnoresSpaces(a: string, b: string)
    ensures NormalizeName(a + " " + b) == NormalizeName(a + "\U{3000}" + b) == NormalizeName(a + b)
  {
    var whole := CanonicalBeforeNfc(a) + CanonicalBeforeNfc(b);
    CanonicalBeforeNfcConcat(a, b);
    forall sp | sp == ' ' || sp == '\U{3000}'
      ensures a + [sp] + b != "" && CanonicalBeforeNfc(a + [sp] + b) == whole
    {
      assert |a + [sp] + b| > 0;
      CanonicalBeforeNfcConcat(a + [sp], b);
      CanonicalBeforeNfcConcat(a, [sp]);
      CanonicalBeforeNfcSingle(sp);
      assert CanonicalBeforeNfc(a) + [] == CanonicalBeforeNfc(a);
    }
    assert a + " " + b == a + [' '] + b;
    assert a + "\U{3000}" + b == a + ['\U{3000}'] + b;
  }

  /*
   * Timestamps: `toJSTTimestamp`.
   */

  /** `\d` without the `u` flag: an ASCII digit. */
  predicate IsDigit(c: char) {
    '0' <= c <= '9'
  }

  /** `/^\d{4}-\d{2}-\d{2}$/` */
  predicate IsDateShape(s: string) {
    && |s| == 10
    && IsDigit(s[0]) && IsDigit(s[1]) && IsDigit(s[2]) && IsDigit(s[3])
    && s[4] == '-' && IsDigit(s[5]) && IsDigit(s[6])
    && s[7] == '-' && IsDigit(s[8]) && IsDigit(s[9])
  }

  /** `/^\d{2}:\d{2}(?::\d{2})?$/` */
  predicate IsClockShape(t: string) {
    && (|t| == 5 || |t| == 8)
    && IsDigit(t[0]) && IsDigit(t[1]) && t[2] == ':' && IsDigit(t[3]) && IsDigit(t[4])
    && (|t| == 8 ==> t[5] == ':' && IsDigit(t[6]) && IsDigit(t[7]))
  }

  /** `/^(\d{4}-\d{2}-\d{2})[T ](\d{2}:\d{2}(?::\d{2})?)$/` */
  predicate IsDateTimeShape(s: string) {
    |s| > 10 && IsDateShape(s[..10]) && (s[10] == 'T' || s[10] == ' ') && IsClockShape(s[11..])
  }

  /**
   * The RFC 3339 (section 5.6) `date-time` shape with the fixed offset `+09:00`:
   * `YYYY-MM-DDTHH:MM:SS+09:00`. The digit values are not restricted.
   */
  predicate IsJstDateTime(t: string) {
    && |t| == 25
    && IsDateShape(t[..10]) && t[10] == 'T'
    && IsClockShape(t[11..19]) && |t[11..19]| == 8
    && t[19..] == "+09:00"
  }

  const JstOffset := "+09:00"

  /** The text the two patterns are matched against: trimmed, with every `/` turned into `-`. */
  function TimestampText(raw: string): string {
    ReplaceChar(Trim(raw), '/', '-')
  }

  /** The two `match` calls on the prepared text `s`. */
  function JstFromText(s: string): (r: Option<string>)
    ensures r.Some? ==> IsJstDateTime(r.value)
  {
    if IsDateTimeShape(s) then
      var seconds := if |s| == 16 then ":00" else "";
      Some(s[..10] + "T" + s[11..] + seconds + JstOffset)
    else if IsDateShape(s) then
      Some(s + "T00:00:00" + JstOffset)
    else None
  }

  /**
   * `toJSTTimestamp(raw)`: `None` for a missing or blank value; a date-time or a bare date
   * (after `/` becomes `-`) as a `+09:00` timestamp, with `:00` seconds added when they are
   * absent; `None` for every other shape.
   */
  function ToJstTimestamp(raw: Option<string>): (r: Option<string>)
    ensures raw.None? ==> r.None?
    ensures r.Some? ==> IsJstDateTime(r.value)
  {
    if raw.None? || Trim(raw.value) == "" then None
    else JstFromText(TimestampText(raw.value))
  }

  /**
   * A timestamp is produced exactly when the trimmed, `/`-to-`-` text has one of the two shapes;
   * blank text (whitespace only, or empty) never gives one.
   */
  lemma ToJstTimestampDefined(raw: string)
    ensures ToJstTimestamp(Some(raw)).Some? <==>
      IsDateTimeShape(TimestampText(raw)) || IsDateShape(TimestampText(raw))
    ensures IsBlank(raw) ==> ToJstTimestamp(Some(raw)).None?
  {
    TrimEmptyIffBlank(raw);
  }

  /**
   * The date, hours and minutes of a date-time are copied verbatim; given seconds are kept,
   * missing seconds become `00`; a bare date gets midnight.
   */
  lemma ToJstTimestampFields(raw: string)
    requires ToJstTimestamp(Some(raw)).Some?
    ensures var s, t := TimestampText(raw), ToJstTimestamp(Some(raw)).value;
      && t[..10] == s[..10]
      && (IsDateTimeShape(s) ==> t[11..16] == s[11..16] && t[17..19] == (if |s| == 19 then s[17..19] else "00"))
      && (!IsDateTimeShape(s) ==> s == t[..10] && t[10..19] == "T00:00:00")
  {
    assert ToJstTimestamp(Some(raw)) == JstFromText(TimestampText(raw));
    JstFromTextFields(TimestampText(raw));
  }

  /** Where the date, the hours and minutes, and the seconds sit in `date + "T" + clock + offset`. */
  lemma DateClockSlices(date: string, clock: string, offset: string)
    requires |date| == 10 && |clock| == 8
    ensures var t := date + "T" + clock + offset;
      t[..10] == date && t[11..16] == clock[..5] && t[17..19] == clock[6..8]
  {
    var t := date + "T" + clock + offset;
    assert t[..10] == date;
    assert t[11..19] == clock;
    assert t[11..16] == t[11..19][..5];
    assert t[17..19] == t[11..19][6..8];
  }

  /** The field-copying part of `ToJstTimestampFields`, on the prepared text. */
  lemma JstFromTextFields(s: string)
    requires JstFromText(s).Some?
    ensures var t := JstFromText(s).value;
      && t[..10] == s[..10]
      && (IsDateTimeShape(s) ==> t[11..16] == s[11..16] && t[17..19] == (if |s| == 19 then s[17..19] else "00"))
      && (!IsDateTimeShape(s) ==> s == t[..10] && t[10..19] == "T00:00:00")
  {
    if IsDateTimeShape(s) {
      var seconds := if |s| == 16 then ":00" else "";
      var clock := s[11..] + seconds;
      assert |clock| == 8;
      DateClockSlices(s[..10], clock, JstOffset);
      assert clock[..5] == s[11..16];
      if |s| == 19 {
        assert clock[6..8] == s[17..19];
      } else {
        assert clock[6..8] == "00";
      }
    } else {
      var t := s + "T00:00:00" + JstOffset;
      assert t[..10] == s;
    }
  }

  /** The date-time branch of `JstFromText` on one input; it only serves the example lemmas below. */
  lemma JstOfDateTime(s: string)
    requires IsDateTimeShape(s)
    ensures JstFromText(s) == Some(s[..10] + "T" + s[11..] + (if |s| == 16 then ":00" else "") + JstOffset)
  {
  }

  /** `/` and `-` are interchangeable in the input: the slashes are rewritten before matching. */
  lemma SlashesAreDashes(raw: string)
    ensures ToJstTimestamp(Some(ReplaceChar(raw, '/', '-'))) == ToJstTimestamp(Some(raw))
  {
    PreparedTextSlashes(raw);
  }

  /** The text-level part of `SlashesAreDashes`: blankness and the prepared text are unchanged. */
  lemma PreparedTextSlashes(raw: string)
    ensures Trim(ReplaceChar(raw, '/', '-')) == "" <==> Trim(raw) == ""
    ensures TimestampText(ReplaceChar(raw, '/', '-')) == TimestampText(raw)
  {
    var r, t := ReplaceChar(raw, '/', '-'), Trim(raw);
    TrimReplaceChar(raw, '/', '-');
    ReplaceCharTwice(t, '/', '-');
    assert |Trim(r)| == |t|;
    calc {
      TimestampText(r);
      ReplaceChar(Trim(r), '/', '-');
      ReplaceChar(ReplaceChar(t, '/', '-'), '/', '-');
      ReplaceChar(t, '/', '-');
    }
  }

  /** A space and a `T` between the date and the clock are interchangeable. */
  lemma SpaceOrTSeparator(date: string, clock: string)
    requires |date| == 10
    ensures JstFromText(date + " " + clock) == JstFromText(date + "T" + clock)
  {
    var a, b := date + " " + clock, date + "T" + clock;
    assert a[..10] == b[..10] == date && a[11..] == b[11..] == clock;
  }

  /** `2024/01/05 09:30` is prepared as `2024-01-05 09:30`. */
  lemma SlashPreparedExample(raw: string)
    requires raw == "2024/01/05 09:30"
    ensures Trim(raw) == raw && TimestampText(raw) == "2024-01-05 09:30"
  {
    TrimUnchanged(raw);
  }

  /** A date-time without seconds gets `:00`; with the space or the `T` it is `2024-01-05T09:30:00+09:00`. */
  lemma MinutesExample(s: string)
    requires s == "2024-01-05T09:30"
    ensures JstFromText(s) == Some("2024-01-05T09:30:00+09:00")
  {
    JstOfDateTime(s);
    assert s[..10] + "T" + s[11..] + ":00" + JstOffset == "2024-01-05T09:30:00+09:00";
  }

  /** Seconds already present are kept. */
  lemma SecondsKeptExample(s: string)
    requires s == "2024-01-05 09:30:15"
    ensures JstFromText(s) == Some("2024-01-05T09:30:15+09:00")
  {
    JstOfDateTime(s);
    assert s[..10] + "T" + s[11..] + "" + JstOffset == "2024-01-05T09:30:15+09:00";
  }

  /** A bare date gets midnight. */
  lemma DateOnlyExample(s: string)
    requires s == "2024-01-05"
    ensures JstFromText(s) == Some("2024-01-05T00:00:00+09:00")
  {
    assert s + "T00:00:00" + JstOffset == "2024-01-05T00:00:00+09:00";
  }

  /** Digit values are never range-checked: month 13, day 45, hour 25 and minute 61 are accepted. */
  lemma NoRangeCheckExample(s: string)
    requires s == "2024-13-45 25:61"
    ensures JstFromText(s) == Some("2024-13-45T25:61:00+09:00")
  {
    JstOfDateTime(s);
    assert s[..10] + "T" + s[11..] + ":00" + JstOffset == "2024-13-45T25:61:00+09:00";
  }

  /** Other shapes (day first, unpadded fields) and a missing value give no timestamp. */
  lemma RejectExamples(a: string, b: string)
    requires a == "05/01/2024" && b == "2024-1-5"
    ensures JstFromText(ReplaceChar(a, '/', '-')) == None
    ensures JstFromText(b) == None
    ensures ToJstTimestamp(None) == None
  {
    assert ReplaceChar(a, '/', '-')[2] == '-';
  }

  /*
   * Category tags: `inferCategoryTag`.
   */

  const ExcretionKeywords: seq<string> := ["便", "尿", "オムツ", "パット"]
  const ConditionKeywords: seq<string> := ["熱", "度", "血圧", "痰"]
  const SleepKeywords: seq<string> := ["入眠", "覚醒", "鼾"]

  const TagExcretion := "排泄"
  const TagCondition := "体調"
  const TagSleep := "睡眠"
  const TagOther := "その他"
  const TagMeal := "食事"

  /** `message` includes one of the keywords (an alternation of literals). */
  predicate ContainsAny(message: string, keywords: seq<string>) {
    exists i :: 0 <= i < |keywords| && Contains(message, keywords[i])
  }

  /** `/[Ss][Pp][Oo]2/` matches at the start of `s`. */
  predicate IsSpO2Prefix(s: string) {
    |s| >= 4 && (s[0] == 'S' || s[0] == 's') && (s[1] == 'P' || s[1] == 'p')
    && (s[2] == 'O' || s[2] == 'o') && s[3] == '2'
  }

  /** `/[Ss][Pp][Oo]2/.test(s)` */
  predicate ContainsSpO2(s: string)
    decreases |s|
  {
    IsSpO2Prefix(s) || (s != [] && ContainsSpO2(s[1..]))
  }

  /** The condition rule: a condition keyword or a case-variant of `SpO2`. */
  predicate IsConditionMessage(message: string) {
    ContainsAny(message, ConditionKeywords) || ContainsSpO2(message)
  }

  /** `inferCategoryTag(message)`: the tag of the first rule (excretion, condition, sleep) that matches. */
  function InferCategoryTag(message: string): (r: string)
    ensures r == TagExcretion || r == TagCondition || r == TagSleep || r == TagOther
    ensures r != TagMeal
  {
    if ContainsAny(message, ExcretionKeywords) then TagExcretion
    else if IsConditionMessage(message) then TagCondition
    else if ContainsAny(message, SleepKeywords) then TagSleep
    else TagOther
  }

  /** The eight spellings `/[Ss][Pp][Oo]2/` accepts. */
  const SpO2Spellings: seq<string> :=
    ["SPO2", "SPo2", "SpO2", "Spo2", "sPO2", "sPo2", "spO2", "spo2"]

  /** The case-insensitive window is the same as including one of the eight spellings. */
  lemma {:induction false} ContainsSpO2IffSpelling(s: string)
    ensures ContainsSpO2(s) <==> ContainsAny(s, SpO2Spellings)
    decreases |s|
  {
    if IsSpO2Prefix(s) {
      var i := (if s[0] == 'S' then 0 else 4) + (if s[1] == 'P' then 0 else 2) + (if s[2] == 'O' then 0 else 1);
      assert SpO2Spellings[i] == s[..4];
      assert IsPrefix(SpO2Spellings[i], s);
    } else if s == [] {
      forall i | 0 <= i < |SpO2Spellings| ensures !Contains(s, SpO2Spellings[i]) {}
    } else {
      ContainsSpO2IffSpelling(s[1..]);
      forall i | 0 <= i < |SpO2Spellings|
        ensures Contains(s, SpO2Spellings[i]) <==> Contains(s[1..], SpO2Spellings[i])
      {
        assert !IsPrefix(SpO2Spellings[i], s);
      }
    }
  }

  /**
   * The rules are tried in order: a tag is returned exactly when its own keywords occur
   * somewhere in the message and those of every earlier rule occur nowhere.
   */
  lemma CategoryByOccurrence(message: string)
    ensures InferCategoryTag(message) == TagExcretion <==>
      exists i, k :: 0 <= i < |ExcretionKeywords| && OccursAt(message, ExcretionKeywords[i], k)
    ensures InferCategoryTag(message) == TagCondition <==>
      (forall i, k :: 0 <= i < |ExcretionKeywords| ==> !OccursAt(message, ExcretionKeywords[i], k))
      && ((exists i, k :: 0 <= i < |ConditionKeywords| && OccursAt(message, ConditionKeywords[i], k))
          || (exists i, k :: 0 <= i < |SpO2Spellings| && OccursAt(message, SpO2Spellings[i], k)))
    ensures InferCategoryTag(message) == TagSleep <==>
      (forall i, k :: 0 <= i < |ExcretionKeywords| ==> !OccursAt(message, ExcretionKeywords[i], k))
      && (forall i, k :: 0 <= i < |ConditionKeywords| ==> !OccursAt(message, ConditionKeywords[i], k))
      && (forall i, k :: 0 <= i < |SpO2Spellings| ==> !OccursAt(message, SpO2Spellings[i], k))
      && (exists i, k :: 0 <= i < |SleepKeywords| && OccursAt(message, SleepKeywords[i], k))
    ensures InferCategoryTag(message) == TagOther <==>
      (forall i, k :: 0 <= i < |ExcretionKeywords| ==> !OccursAt(message, ExcretionKeywords[i], k))
      && (forall i, k :: 0 <= i < |ConditionKeywords| ==> !OccursAt(message, ConditionKeywords[i], k))
      && (forall i, k :: 0 <= i < |SpO2Spellings| ==> !OccursAt(message, SpO2Spellings[i], k))
      && (forall i, k :: 0 <= i < |SleepKeywords| ==> !OccursAt(message, SleepKeywords[i], k))
  {
    forall w: string { ContainsIffOccurs(message, w); }
    ContainsSpO2IffSpelling(message);
  }

  /** A message without `S` or `s` cannot match the `SpO2` window. */
  lemma {:induction false} SpO2NeedsS(s: string)
    requires ContainsSpO2(s)
    ensures 'S' in s || 's' in s
    decreases |s|
  {
    if !IsSpO2Prefix(s) {
      SpO2NeedsS(s[1..]);
    }
  }

  /** A keyword list none of whose first characters occurs in the message does not match it. */
  lemma NoKeywordStart(message: string, keywords: seq<string>)
    requires forall i :: 0 <= i < |keywords| ==> keywords[i] != [] && keywords[i][0] !in message
    ensures !ContainsAny(message, keywords)
  {
    forall i | 0 <= i < |keywords| ensures !Contains(message, keywords[i]) {
      if Contains(message, keywords[i]) {
        ContainsFirstChar(message, keywords[i]);
      }
    }
  }

  /** A message in which no keyword's first character appears matches no rule. */
  lemma NoKeywordCharacters(message: string)
    requires forall c :: c in message ==> c !in "便尿オパ熱度血痰入覚鼾Ss"
    ensures InferCategoryTag(message) == TagOther
  {
    NoKeywordStart(message, ExcretionKeywords);
    NoKeywordStart(message, ConditionKeywords);
    NoKeywordStart(message, SleepKeywords);
    if ContainsSpO2(message) {
      SpO2NeedsS(message);
    }
  }

  /** An excretion keyword wins even when a condition keyword appears first in the message. */
  lemma ExcretionWinsExample(m: string)
    requires m == "体温38.5度、排尿あり"
    ensures InferCategoryTag(m) == TagExcretion
  {
    assert OccursAt(m, "尿", 9);
    ContainsAt(m, "尿", 9);
    assert Contains(m, ExcretionKeywords[1]);
  }

  /** Sleep described without one of the three sleep keywords is not tagged as sleep. */
  lemma SleepWithoutKeywordExample(m: string)
    requires m == "よく眠れています"
    ensures InferCategoryTag(m) == TagOther
  {
    NoKeywordCharacters(m);
  }

  /** `SpO2` matches with any case of S, P and O. */
  lemma SpO2Example(a: string)
    requires a == "spO2 95%"
    ensures InferCategoryTag(a) == TagCondition
  {
    NoKeywordStart(a, ExcretionKeywords);
    assert IsSpO2Prefix(a);
  }

  /** `入眠` alone gives the sleep tag. */
  lemma SleepExample(b: string)
    requires b == "22時入眠"
    ensures InferCategoryTag(b) == TagSleep
  {
    NoKeywordStart(b, ExcretionKeywords);
    NoKeywordStart(b, ConditionKeywords);
    if ContainsSpO2(b) {
      SpO2NeedsS(b);
    }
    assert OccursAt(b, "入眠", 3);
    ContainsAt(b, "入眠", 3);
    assert Contains(b, SleepKeywords[0]);
  }
}
