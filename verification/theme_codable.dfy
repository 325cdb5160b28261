/**
 * The JSON codecs of presentation themes: colours, the small enumerations,
 * the wallpaper and theme-name codecs, keyed colour sections, the action
 * sheet section and the theme root.
 *
 * JSON values are modelled by `Json`; a keyed container is a `JObject`
 * whose fields map coding keys to values.  `UIColor(hexString:)` belongs to
 * a framework that is not part of this model: decoders take it as the
 * parameter `parse`, and round trips assume only `ReadsHexColors(parse)`,
 * i.e. that it reads back six- and eight-digit hexadecimal strings.
 */
module ThemeCodable {
  import opened Wrappers
  import opened Text

  // ---------------------------------------------------------------------
  // JSON and decoding errors
  // ---------------------------------------------------------------------

  /**
   * The coding keys of the decoders modelled here, by their Swift case
   * names (each key's raw value is its case name); `OtherKey` stands for
   * any other key an object may hold.
   */
  datatype Key =
    // PresentationTheme
    | NameKey | AuthorKey | DarkKey | IntroKey | PasscodeKey | RootKey | ListKey | ChatListKey | ChatKey
    | ActionSheetKey | NotificationKey
    // PresentationThemeActionSheet
    | Dim | BgType | OpaqueItemBg | ItemBg | OpaqueItemHighlightedBg | ItemHighlightedBg | OpaqueItemSeparator
    | StandardActionText | DestructiveActionText | DisabledActionText | PrimaryText | SecondaryText
    | ControlAccent | InputBg | InputHollowBg | InputBorder | InputPlaceholder | InputText | InputClearButton
    | CheckContent
    | OtherKey(name: string)

  datatype Json =
    | JNull
    | JBool(b: bool)
    | JNumber(n: int)
    | JString(s: string)
    | JObject(fields: map<Key, Json>)

  /**
   * Why a decoder threw: a required key was absent (`keyNotFound`), a value
   * had the wrong shape (type mismatch or null), or a colour could not be read
   * (`PresentationThemeColorDecodingError.generic`).
   */
  datatype DecodeError = KeyNotFound(key: Key) | InvalidValue | ColorError

  /** `values.decode(T.self, forKey: key)`: the value under a key, or keyNotFound. */
  function Required(fields: map<Key, Json>, key: Key): (r: Result<Json, DecodeError>)
    ensures r.Success? <==> key in fields
    ensures r.Success? ==> r.value == fields[key]
    ensures r.Failure? ==> r.error == KeyNotFound(key)
  {
    if key in fields then Success(fields[key]) else Failure(KeyNotFound(key))
  }

  // ---------------------------------------------------------------------
  // Colours
  // ---------------------------------------------------------------------

  /** A colour as its 32-bit ARGB value: alpha in the top byte. */
  type Color = c: int | 0 <= c < 0x1_0000_0000

  /** `UIColor.clear`: every component zero. */
  const Clear: Color := 0

  function Alpha(c: Color): int { c / 0x100_0000 }

  function Rgb(c: Color): int { c % 0x100_0000 }

  /** The hex-string reader reads six digits as an opaque RGB colour and eight digits as ARGB. */
  ghost predicate ReadsHexColors(parse: string -> Option<Color>) {
    && (forall s {:trigger parse(s)} :: IsHexString(s) && |s| == 6 ==> parse(s).Some? && parse(s).value == 0xFF00_0000 + HexValue(s))
    && (forall s {:trigger parse(s)} :: IsHexString(s) && |s| == 8 ==> parse(s).Some? && parse(s).value == HexValue(s))
  }

  /**
   * `decodeColor`: the value must be a string; "clear" in any case is the
   * clear colour, anything else goes to the hex reader; a missing key, a
   * non-string or an unreadable string throws.
   */
  function DecodeColor(fields: map<Key, Json>, key: Key, parse: string -> Option<Color>): (r: Result<Color, DecodeError>)
    ensures r.Failure? ==> r.error == ColorError
    ensures key !in fields || !fields[key].JString? ==> r.Failure?
    ensures key in fields && fields[key].JString? && EqualsIgnoringCase(fields[key].s, "clear") ==> r == Success(Clear)
  {
    if key in fields && fields[key].JString? then
      var value := fields[key].s;
      if Lower(value) == "clear" then Success(Clear)
      else if parse(value).Some? then Success(parse(value).value)
      else Failure(ColorError)
    else Failure(ColorError)
  }

  /**
   * `encodeColor`: "clear" for the clear colour, eight hex digits (ARGB)
   * when the colour is translucent, otherwise six hex digits (RGB).
   */
  function EncodeColor(c: Color): (r: Json)
    ensures r.JString?
    ensures c == Clear <==> r.s == "clear"
    ensures c != Clear && Alpha(c) < 0xFF ==> |r.s| == 8 && IsHexString(r.s) && HexValue(r.s) == c
    ensures c != Clear && Alpha(c) == 0xFF ==> |r.s| == 6 && IsHexString(r.s) && HexValue(r.s) == Rgb(c)
  {
    HexRoundTrip(c, 8);
    HexRoundTrip(Rgb(c), 6);
    if c == Clear then JString("clear")
    else if Alpha(c) < 0xFF then (HexLength(c, 8); JString(Hex(c, 8)))
    else (HexLength(Rgb(c), 6); JString(Hex(Rgb(c), 6)))
  }

  /** Decoding an encoded colour gives the colour back. */
  lemma ColorRoundTrip(fields: map<Key, Json>, key: Key, c: Color, parse: string -> Option<Color>)
    requires ReadsHexColors(parse)
    requires key in fields && fields[key] == EncodeColor(c)
    ensures DecodeColor(fields, key, parse) == Success(c)
  {
    if c == Clear {
      LowerOfLower("clear");
    } else {
      HexColorRead(EncodeColor(c).s, c, parse);
    }
  }

  /** The hex text of a colour other than clear is not "clear" and reads back as the colour. */
  lemma HexColorRead(s: string, c: Color, parse: string -> Option<Color>)
    requires ReadsHexColors(parse)
    requires c != Clear && s == EncodeColor(c).s
    ensures Lower(s) != "clear" && parse(s) == Some(c)
  {
    assert |Lower(s)| == |s| && |s| >= 6;
    if Alpha(c) < 0xFF {
      assert IsHexString(s) && |s| == 8;
    } else {
      assert IsHexString(s) && |s| == 6;
      assert 0xFF00_0000 + Rgb(c) == c;
    }
  }

  // ---------------------------------------------------------------------
  // Keyed colour sections
  // ---------------------------------------------------------------------

  /**
   * A section decoder that reads the colours under `keys` in order and stops
   * at the first one that throws.
   */
  function DecodeColors(fields: map<Key, Json>, keys: seq<Key>, parse: string -> Option<Color>)
    : (r: Result<map<Key, Color>, DecodeError>)
    ensures r.Failure? ==> r.error == ColorError
    ensures r.Success? <==> forall k :: k in keys ==> DecodeColor(fields, k, parse).Success?
    ensures r.Success? ==> forall k :: k in r.value <==> k in keys
    ensures r.Success? ==> forall k :: k in keys ==> r.value[k] == DecodeColor(fields, k, parse).value
  {
    if |keys| == 0 then Success(map[])
    else
      var c :- DecodeColor(fields, keys[0], parse);
      var rest :- DecodeColors(fields, keys[1..], parse);
      assert forall k :: k in keys ==> k == keys[0] || k in keys[1..];
      Success(rest[keys[0] := c])
  }

  /** A section encoder that writes the colours under `keys`. */
  function EncodeColors(colors: map<Key, Color>, keys: seq<Key>): (r: map<Key, Json>)
    requires forall k :: k in keys ==> k in colors
    ensures forall k :: k in r <==> k in keys
    ensures forall k :: k in keys ==> r[k] == EncodeColor(colors[k])
  {
    if |keys| == 0 then map[]
    else
      assert forall k :: k in keys ==> k == keys[0] || k in keys[1..];
      EncodeColors(colors, keys[1..])[keys[0] := EncodeColor(colors[keys[0]])]
  }

  function Restrict(colors: map<Key, Color>, keys: seq<Key>): map<Key, Color> {
    map k | k in colors && k in keys :: colors[k]
  }

  /**
   * Key symmetry: when every key the decoder reads is one the encoder writes,
   * decoding the encoder's output gives back the colours under those keys.
   */
  lemma SectionRoundTrip(colors: map<Key, Color>, encodeKeys: seq<Key>, decodeKeys: seq<Key>,
                         parse: string -> Option<Color>)
    requires ReadsHexColors(parse)
    requires forall k :: k in encodeKeys ==> k in colors
    requires forall k :: k in decodeKeys ==> k in encodeKeys
    ensures DecodeColors(EncodeColors(colors, encodeKeys), decodeKeys, parse) == Success(Restrict(colors, decodeKeys))
  {
    var fields := EncodeColors(colors, encodeKeys);
    forall k | k in decodeKeys ensures DecodeColor(fields, k, parse) == Success(colors[k]) {
      ColorRoundTrip(fields, k, colors[k], parse);
    }
    DecodedSection(fields, colors, decodeKeys, parse);
  }

  /** A section decodes to the colours that every one of its keys decodes to. */
  lemma DecodedSection(fields: map<Key, Json>, colors: map<Key, Color>, decodeKeys: seq<Key>,
                       parse: string -> Option<Color>)
    requires forall k :: k in decodeKeys ==> k in colors && DecodeColor(fields, k, parse) == Success(colors[k])
    ensures DecodeColors(fields, decodeKeys, parse) == Success(Restrict(colors, decodeKeys))
  {
    var r := DecodeColors(fields, decodeKeys, parse);
    assert r.Success?;
    assert r.value == Restrict(colors, decodeKeys);
  }

  /** Key asymmetry: a key the decoder reads but the encoder never writes makes decoding fail. */
  lemma SectionMissingKeyFails(colors: map<Key, Color>, encodeKeys: seq<Key>, decodeKeys: seq<Key>,
                               key: Key, parse: string -> Option<Color>)
    requires forall k :: k in encodeKeys ==> k in colors
    requires key in decodeKeys && key !in encodeKeys
    ensures DecodeColors(EncodeColors(colors, encodeKeys), decodeKeys, parse) == Failure(ColorError)
  {
    var fields := EncodeColors(colors, encodeKeys);
    assert DecodeColor(fields, key, parse).Failure?;
  }

  // ---------------------------------------------------------------------
  // Enumerations decoded from strings, with a default
  // ---------------------------------------------------------------------

  datatype StatusBarStyle = Black | White

  /** Any case of "white" is White; every other value, string or not, is Black. */
  function DecodeStatusBarStyle(v: Json): (r: StatusBarStyle)
    ensures r == White <==> v.JString? && EqualsIgnoringCase(v.s, "white")
  {
    LowerOfLower("white");
    if v.JString? then
      match Lower(v.s)
      case "black" => Black
      case "white" => White
      case _ => Black
    else Black
  }

  /** Each style by its lower-case name, which the decoder reads back. */
  function EncodeStatusBarStyle(s: StatusBarStyle): (r: Json)
    ensures r.JString?
    ensures s == Black ==> r.s == "black"
    ensures s == White ==> r.s == "white"
  {
    match s
    case Black => JString("black")
    case White => JString("white")
  }

  lemma StatusBarStyleRoundTrip(s: StatusBarStyle)
    ensures DecodeStatusBarStyle(EncodeStatusBarStyle(s)) == s
  {
  }

  datatype ActionSheetBackgroundType = LightSheet | DarkSheet

  /** Any case of "dark" is dark; every other value, string or not, is light. */
  function DecodeActionSheetBackgroundType(v: Json): (r: ActionSheetBackgroundType)
    ensures r == DarkSheet <==> v.JString? && EqualsIgnoringCase(v.s, "dark")
  {
    LowerOfLower("dark");
    if v.JString? then
      match Lower(v.s)
      case "light" => LightSheet
      case "dark" => DarkSheet
      case _ => LightSheet
    else LightSheet
  }

  /** Each type by its lower-case name, which the decoder reads back. */
  function EncodeActionSheetBackgroundType(t: ActionSheetBackgroundType): (r: Json)
    ensures r.JString?
    ensures t == LightSheet ==> r.s == "light"
    ensures t == DarkSheet ==> r.s == "dark"
  {
    match t
    case LightSheet => JString("light")
    case DarkSheet => JString("dark")
  }

  lemma ActionSheetBackgroundTypeRoundTrip(t: ActionSheetBackgroundType)
    ensures DecodeActionSheetBackgroundType(EncodeActionSheetBackgroundType(t)) == t
  {
  }

  datatype KeyboardColor = LightKeyboard | DarkKeyboard

  /** Any case of "dark" is dark; every other value, string or not, is light. */
  function DecodeKeyboardColor(v: Json): (r: KeyboardColor)
    ensures r == DarkKeyboard <==> v.JString? && EqualsIgnoringCase(v.s, "dark")
  {
    LowerOfLower("dark");
    if v.JString? then
      match Lower(v.s)
      case "light" => LightKeyboard
      case "dark" => DarkKeyboard
      case _ => LightKeyboard
    else LightKeyboard
  }

  /** Each colour by its lower-case name, which the decoder reads back. */
  function EncodeKeyboardColor(k: KeyboardColor): (r: Json)
    ensures r.JString?
    ensures k == LightKeyboard ==> r.s == "light"
    ensures k == DarkKeyboard ==> r.s == "dark"
  {
    match k
    case LightKeyboard => JString("light")
    case DarkKeyboard => JString("dark")
  }

  lemma KeyboardColorRoundTrip(k: KeyboardColor)
    ensures DecodeKeyboardColor(EncodeKeyboardColor(k)) == k
  {
  }

  // ---------------------------------------------------------------------
  // Wallpaper
  // ---------------------------------------------------------------------

  /**
   * A wallpaper: the built-in one with its settings, a solid colour, or one
   * of the cases the encoder skips. The settings type is not part of this
   * model; it is the parameter `S`.
   */
  datatype Wallpaper<S> = BuiltinWallpaper(settings: S) | ColorWallpaper(value: Int32) | OtherWallpaper

  /**
   * `String(format: "%06x", value)` on an Int32: the 32-bit pattern of the
   * value in hexadecimal, at least six digits.
   */
  function FormatInt32Hex(value: Int32): (r: string)
    ensures IsHexString(r) && HexValue(r) == value % 0x1_0000_0000
    ensures forall i :: 0 <= i < |r| ==> !('A' <= r[i] <= 'Z')
  {
    HexRoundTrip(value % 0x1_0000_0000, 6);
    Hex(value % 0x1_0000_0000, 6)
  }

  /** The wallpaper encoder: "builtin", a colour in hexadecimal, and nothing for every other case. */
  function EncodeWallpaper<S>(w: Wallpaper<S>): (r: Option<Json>)
    ensures r.Some? <==> !w.OtherWallpaper?
    ensures w.BuiltinWallpaper? ==> r == Some(JString("builtin"))
    ensures w.ColorWallpaper? ==> r.Some? && r.value.JString? && HexValue(r.value.s) == w.value % 0x1_0000_0000
  {
    match w
    case BuiltinWallpaper(_) => Some(JString("builtin"))
    case ColorWallpaper(value) => Some(JString(FormatInt32Hex(value)))
    case OtherWallpaper => None
  }

  /**
   * What the wallpaper decoder's branches assign to `self`: the built-in
   * wallpaper with the default settings `defaults` for any case of
   * "builtin", otherwise the colour read from the string, whose RGB part
   * becomes the Int32 value.
   */
  function WallpaperFromString<S>(v: Json, parse: string -> Option<Color>, defaults: S): (r: Result<Wallpaper<S>, DecodeError>)
    ensures r.Success? ==> r.value == BuiltinWallpaper(defaults) || (r.value.ColorWallpaper? && 0 <= r.value.value < 0x100_0000)
    ensures !v.JString? ==> r.Failure?
  {
    if v.JString? then
      if Lower(v.s) == "builtin" then Success(BuiltinWallpaper(defaults))
      else if parse(v.s).Some? then Success(ColorWallpaper(Rgb(parse(v.s).value)))
      else Failure(ColorError)
    else Failure(ColorError)
  }

  /**
   * The wallpaper decoder as written: whether or not a branch assigned
   * `self`, control reaches the trailing `throw`, so decoding never succeeds.
   */
  function DecodeWallpaperAsWritten<S>(v: Json, parse: string -> Option<Color>, defaults: S): (r: Result<Wallpaper<S>, DecodeError>)
    ensures r.Failure?
  {
    var attempt := WallpaperFromString(v, parse, defaults);
    if attempt.Success? then Failure(ColorError) else Failure(attempt.error)
  }

  /** The wallpaper decoder as evidently intended: the assigned value is returned. */
  function DecodeWallpaper<S>(v: Json, parse: string -> Option<Color>, defaults: S): (r: Result<Wallpaper<S>, DecodeError>)
    ensures r == WallpaperFromString(v, parse, defaults)
  {
    WallpaperFromString(v, parse, defaults)
  }

  /** "builtin" is read as the built-in wallpaper, whatever the colour parser. */
  lemma BuiltinTextIsBuiltin<S>(parse: string -> Option<Color>, defaults: S)
    ensures WallpaperFromString(JString("builtin"), parse, defaults) == Success(BuiltinWallpaper(defaults))
  {
    LowerOfLower("builtin");
  }

  /** As written, even the encoder's own output for the built-in wallpaper does not decode. */
  lemma WallpaperAsWrittenRejectsOwnOutput<S>(w: Wallpaper<S>, parse: string -> Option<Color>, defaults: S)
    requires EncodeWallpaper(w).Some?
    ensures DecodeWallpaperAsWritten(EncodeWallpaper(w).value, parse, defaults).Failure?
    ensures DecodeWallpaper(EncodeWallpaper(BuiltinWallpaper(defaults)).value, parse, defaults) == Success(BuiltinWallpaper(defaults))
  {
    BuiltinTextIsBuiltin(parse, defaults);
  }

  /**
   * The corrected decoder reads back every 24-bit colour, and reads any
   * built-in wallpaper as the built-in one with the default settings: the
   * settings themselves are not written.
   */
  lemma WallpaperRoundTrip<S>(w: Wallpaper<S>, parse: string -> Option<Color>, defaults: S)
    requires ReadsHexColors(parse)
    requires w.BuiltinWallpaper? || (w.ColorWallpaper? && 0 <= w.value < 0x100_0000)
    ensures EncodeWallpaper(w).Some?
    ensures DecodeWallpaper(EncodeWallpaper(w).value, parse, defaults) ==
      Success(if w.BuiltinWallpaper? then BuiltinWallpaper(defaults) else w)
  {
    if w.BuiltinWallpaper? {
      BuiltinTextIsBuiltin(parse, defaults);
    } else {
      ColorWallpaperRead(w.value, parse, defaults);
    }
  }

  /** A 24-bit colour's text is read back as that colour. */
  lemma ColorWallpaperRead<S>(v: Int32, parse: string -> Option<Color>, defaults: S)
    requires ReadsHexColors(parse)
    requires 0 <= v < 0x100_0000
    ensures WallpaperFromString(JString(FormatInt32Hex(v)), parse, defaults) == Success(ColorWallpaper(v))
  {
    var s := FormatInt32Hex(v);
    ColorWallpaperText(v);
    assert IsHexString(s) && |s| == 6;
    assert parse(s) == Some(0xFF00_0000 + v);
    assert Rgb(0xFF00_0000 + v) == v;
  }

  /** A 24-bit colour is written as six hexadecimal digits that do not spell "builtin". */
  lemma ColorWallpaperText(v: Int32)
    requires 0 <= v < 0x100_0000
    ensures |FormatInt32Hex(v)| == 6 && HexValue(FormatInt32Hex(v)) == v
    ensures Lower(FormatInt32Hex(v)) != "builtin"
  {
    assert v % 0x1_0000_0000 == v;
    HexLength(v, 6);
    assert |Lower(FormatInt32Hex(v))| == 6;
  }

  // ---------------------------------------------------------------------
  // Theme name
  // ---------------------------------------------------------------------

  datatype BuiltinThemeName = Day | DayClassic | NightAccent | Night
  datatype ThemeName = BuiltinTheme(builtin: BuiltinThemeName) | CustomTheme(name: string)

  /** The theme-name decoder: every string becomes a custom name. */
  function DecodeThemeName(v: Json): (r: Result<ThemeName, DecodeError>)
    ensures r.Success? <==> v.JString?
    ensures r.Success? ==> r.value == CustomTheme(v.s)
  {
    if v.JString? then Success(CustomTheme(v.s)) else Failure(InvalidValue)
  }

  /** The theme-name encoder: built-in names by their display names, custom names as they are. */
  function EncodeThemeName(n: ThemeName): (r: Json)
    ensures r.JString?
    ensures n.CustomTheme? ==> r.s == n.name
    ensures n == BuiltinTheme(Day) ==> r.s == "Day"
    ensures n == BuiltinTheme(DayClassic) ==> r.s == "Classic"
    ensures n == BuiltinTheme(NightAccent) ==> r.s == "Night Tinted"
    ensures n == BuiltinTheme(Night) ==> r.s == "Night"
  {
    match n
    case BuiltinTheme(Day) => JString("Day")
    case BuiltinTheme(DayClassic) => JString("Classic")
    case BuiltinTheme(NightAccent) => JString("Night Tinted")
    case BuiltinTheme(Night) => JString("Night")
    case CustomTheme(name) => JString(name)
  }

  /** Only custom names survive a round trip; a built-in name comes back as a custom one. */
  lemma ThemeNameRoundTrip(n: ThemeName)
    ensures DecodeThemeName(EncodeThemeName(n)) == Success(n) <==> n.CustomTheme?
    ensures n.BuiltinTheme? ==> DecodeThemeName(EncodeThemeName(n)).value.CustomTheme?
  {
  }

  // ---------------------------------------------------------------------
  // Action sheet section
  // ---------------------------------------------------------------------

  /** The colour keys the action-sheet decoder reads after BgType and before ItemHighlightedBg. */
  const KeysBeforeItemHighlightedBg: seq<Key> := [OpaqueItemBg, ItemBg, OpaqueItemHighlightedBg]

  /** The colour keys the action-sheet decoder reads after ItemHighlightedBg. */
  const KeysAfterItemHighlightedBg: seq<Key> := [
    OpaqueItemSeparator, StandardActionText, DestructiveActionText, DisabledActionText,
    PrimaryText, SecondaryText, ControlAccent, InputBg, InputHollowBg, InputBorder,
    InputPlaceholder, InputText, InputClearButton, CheckContent]

  /** The colour keys the action-sheet decoder reads after BgType, in order. */
  const SheetKeysAfterBgType: seq<Key> := KeysBeforeItemHighlightedBg + [ItemHighlightedBg] + KeysAfterItemHighlightedBg

  /** Every colour key of the action sheet. */
  const SheetColorKeys: seq<Key> := [Dim] + SheetKeysAfterBgType

  /** The colour keys the action-sheet encoder writes after BgType: all but ItemHighlightedBg. */
  const SheetKeysWrittenAfterBgType: seq<Key> := KeysBeforeItemHighlightedBg + KeysAfterItemHighlightedBg

  /** The action sheet: its background type and one colour per colour key. */
  datatype ActionSheet = ActionSheet(backgroundType: ActionSheetBackgroundType, colors: map<Key, Color>)

  /** The sheet holds a colour for exactly the action sheet's colour keys. */
  predicate ValidSheet(a: ActionSheet) {
    && (forall k :: k in a.colors ==> k in SheetColorKeys)
    && (forall k :: k in SheetColorKeys ==> k in a.colors)
  }

  /**
   * The action-sheet decoder: Dim, then the background type (only a missing
   * key throws), then the other eighteen colours.
   */
  function DecodeActionSheet(v: Json, parse: string -> Option<Color>): (r: Result<ActionSheet, DecodeError>)
    ensures r.Success? ==> ValidSheet(r.value)
    ensures r.Success? ==> v.JObject? && BgType in v.fields && r.value.backgroundType == DecodeActionSheetBackgroundType(v.fields[BgType])
    ensures r.Success? ==> forall k :: k in SheetColorKeys ==> DecodeColor(v.fields, k, parse) == Success(r.value.colors[k])
    ensures v.JObject? && BgType !in v.fields ==> r.Failure?
  {
    if !v.JObject? then Failure(InvalidValue)
    else
      var fields := v.fields;
      var dim :- DecodeColors(fields, [Dim], parse);
      var bgType :- Required(fields, BgType);
      var rest :- DecodeColors(fields, SheetKeysAfterBgType, parse);
      Success(ActionSheet(DecodeActionSheetBackgroundType(bgType), dim + rest))
  }

  function EncodeSheetWith(a: ActionSheet, keysAfterBgType: seq<Key>): (r: Json)
    requires ValidSheet(a)
    requires forall k :: k in keysAfterBgType ==> k in SheetKeysAfterBgType
    ensures r.JObject? && BgType in r.fields && r.fields[BgType] == EncodeActionSheetBackgroundType(a.backgroundType)
    ensures forall k :: k in r.fields <==> k == Dim || k == BgType || k in keysAfterBgType
    ensures forall k :: k == Dim || k in keysAfterBgType ==> r.fields[k] == EncodeColor(a.colors[k])
  {
    SheetKeysAfterBgTypeExclude();
    JObject(EncodeColors(a.colors, [Dim])[BgType := EncodeActionSheetBackgroundType(a.backgroundType)]
            + EncodeColors(a.colors, keysAfterBgType))
  }

  /** Neither Dim nor BgType is among the colour keys read after BgType. */
  lemma SheetKeysAfterBgTypeExclude()
    ensures BgType !in SheetKeysAfterBgType && Dim !in SheetKeysAfterBgType
  {
  }

  /** The action-sheet encoder as written: ItemHighlightedBg is never written. */
  function EncodeActionSheetAsWritten(a: ActionSheet): (r: Json)
    requires ValidSheet(a)
    ensures r.JObject? && ItemHighlightedBg !in r.fields
    ensures forall k :: k in SheetColorKeys && k != ItemHighlightedBg ==> k in r.fields
  {
    WrittenSheetKeys();
    EncodeSheetWith(a, SheetKeysWrittenAfterBgType)
  }

  /** The keys the encoder as written puts after BgType: every colour key but Dim and ItemHighlightedBg. */
  lemma WrittenSheetKeys()
    ensures ItemHighlightedBg !in SheetKeysWrittenAfterBgType
    ensures forall k :: k in SheetKeysWrittenAfterBgType ==> k in SheetKeysAfterBgType
    ensures forall k :: k in SheetColorKeys && k != ItemHighlightedBg && k != Dim ==> k in SheetKeysWrittenAfterBgType
  {
  }

  /** The action-sheet encoder as evidently intended: every key the decoder reads is written. */
  function EncodeActionSheet(a: ActionSheet): (r: Json)
    requires ValidSheet(a)
    ensures r.JObject? && forall k :: k in SheetColorKeys ==> k in r.fields
  {
    EncodeSheetWith(a, SheetKeysAfterBgType)
  }

  /** As written, the action sheet cannot decode its own encoding: ItemHighlightedBg is missing. */
  lemma ActionSheetAsWrittenRejectsOwnOutput(a: ActionSheet, parse: string -> Option<Color>)
    requires ValidSheet(a)
    ensures DecodeActionSheet(EncodeActionSheetAsWritten(a), parse).Failure?
  {
    assert ItemHighlightedBg in SheetColorKeys;
  }

  /** With the missing key written, every valid action sheet survives a round trip. */
  lemma ActionSheetRoundTrip(a: ActionSheet, parse: string -> Option<Color>)
    requires ValidSheet(a) && ReadsHexColors(parse)
    ensures DecodeActionSheet(EncodeActionSheet(a), parse) == Success(a)
  {
    var fields := EncodeActionSheet(a).fields;
    SheetColorsDecode(a, parse);
    assert Required(fields, BgType) == Success(EncodeActionSheetBackgroundType(a.backgroundType));
    ActionSheetBackgroundTypeRoundTrip(a.backgroundType);
    SheetColorsSplit(a);
  }

  /** Both colour sections of the corrected encoding decode to the sheet's colours. */
  lemma SheetColorsDecode(a: ActionSheet, parse: string -> Option<Color>)
    requires ValidSheet(a) && ReadsHexColors(parse)
    ensures var fields := EncodeActionSheet(a).fields;
            && DecodeColors(fields, [Dim], parse) == Success(Restrict(a.colors, [Dim]))
            && DecodeColors(fields, SheetKeysAfterBgType, parse) == Success(Restrict(a.colors, SheetKeysAfterBgType))
  {
    var fields := EncodeActionSheet(a).fields;
    forall k | k in SheetColorKeys ensures DecodeColor(fields, k, parse) == Success(a.colors[k]) {
      ColorRoundTrip(fields, k, a.colors[k], parse);
    }
    DecodedSection(fields, a.colors, [Dim], parse);
    DecodedSection(fields, a.colors, SheetKeysAfterBgType, parse);
  }

  /** The Dim colour and the colours after BgType make up the whole sheet. */
  lemma SheetColorsSplit(a: ActionSheet)
    requires ValidSheet(a)
    ensures Restrict(a.colors, [Dim]) + Restrict(a.colors, SheetKeysAfterBgType) == a.colors
  {
    assert forall k :: k in SheetColorKeys <==> k == Dim || k in SheetKeysAfterBgType;
  }

  // ---------------------------------------------------------------------
  // Theme root
  // ---------------------------------------------------------------------

  /** Required sections decoded before the action sheet, in decoding order. */
  const SectionsBeforeSheet: seq<Key> := [IntroKey, PasscodeKey, RootKey, ListKey, ChatListKey, ChatKey]

  /** Required sections decoded after the action sheet. */
  const SectionsAfterSheet: seq<Key> := [NotificationKey]

  /** Every key the theme decoder requires. */
  const RequiredThemeKeys: seq<Key> := [NameKey] + SectionsBeforeSheet + [ActionSheetKey] + SectionsAfterSheet

  /**
   * A theme.  The sections other than the action sheet are kept as the JSON
   * values found under their keys; their own codecs are not part of this model.
   */
  datatype Theme = Theme(
    name: ThemeName,
    author: Option<string>,
    dark: bool,
    sections: map<Key, Json>,
    actionSheet: ActionSheet)

  /** A key of one of the sections kept as JSON. */
  predicate IsSectionKey(k: Key) {
    k.IntroKey? || k.PasscodeKey? || k.RootKey? || k.ListKey? || k.ChatListKey? || k.ChatKey? || k.NotificationKey?
  }

  /** The section lists hold exactly the section keys. */
  lemma SectionKeys()
    ensures forall k :: k in SectionsBeforeSheet || k in SectionsAfterSheet <==> IsSectionKey(k)
  {
  }

  /** The theme holds a value for exactly the sections kept as JSON. */
  predicate ValidTheme(t: Theme) {
    && ValidSheet(t.actionSheet)
    && (forall k :: k in t.sections ==> k in SectionsBeforeSheet || k in SectionsAfterSheet)
    && (forall k :: k in SectionsBeforeSheet ==> k in t.sections)
    && (forall k :: k in SectionsAfterSheet ==> k in t.sections)
  }

  /** The values under `keys`, each required; the first missing key is reported. */
  function RequiredAll(fields: map<Key, Json>, keys: seq<Key>): (r: Result<map<Key, Json>, DecodeError>)
    ensures r.Success? <==> forall k :: k in keys ==> k in fields
    ensures r.Failure? ==> r.error.KeyNotFound? && r.error.key in keys && r.error.key !in fields
    ensures r.Success? ==> forall k :: k in r.value <==> k in keys
    ensures r.Success? ==> forall k :: k in keys ==> r.value[k] == fields[k]
  {
    if |keys| == 0 then Success(map[])
    else
      var v :- Required(fields, keys[0]);
      var rest :- RequiredAll(fields, keys[1..]);
      assert forall k :: k in keys ==> k == keys[0] || k in keys[1..];
      Success(rest[keys[0] := v])
  }

  /** The string under the key when there is one, else none; a value of another type also reads as none. */
  function OptionalString(fields: map<Key, Json>, key: Key): Option<string> {
    if key in fields && fields[key].JString? then Some(fields[key].s) else None
  }

  /** The Bool under the key, or false when the key is missing or holds another type. */
  function BoolOrFalse(fields: map<Key, Json>, key: Key): bool {
    key in fields && fields[key].JBool? && fields[key].b
  }

  /** The theme decoder: the name and every section are required; author and dark are optional. */
  function DecodeTheme(v: Json, parse: string -> Option<Color>): (r: Result<Theme, DecodeError>)
  {
    if !v.JObject? then Failure(InvalidValue)
    else
      var fields := v.fields;
      var nameValue :- Required(fields, NameKey);
      var name :- DecodeThemeName(nameValue);
      var before :- RequiredAll(fields, SectionsBeforeSheet);
      var sheetValue :- Required(fields, ActionSheetKey);
      var sheet :- DecodeActionSheet(sheetValue, parse);
      var after :- RequiredAll(fields, SectionsAfterSheet);
      Success(Theme(name, OptionalString(fields, AuthorKey), BoolOrFalse(fields, DarkKey), before + after, sheet))
  }

  /** A decoded theme came from an object holding every required key, and is a valid theme with a custom name. */
  lemma DecodedThemeIsValid(v: Json, parse: string -> Option<Color>)
    ensures var r := DecodeTheme(v, parse);
            && (r.Success? ==> v.JObject? && forall k :: k in RequiredThemeKeys ==> k in v.fields)
            && (r.Success? ==> ValidTheme(r.value) && r.value.name.CustomTheme?)
  {
  }

  /** The theme encoder, given the encoding of the action sheet. */
  function EncodeThemeWith(t: Theme, sheet: Json): (r: Json)
    ensures r.JObject?
    ensures NameKey in r.fields && r.fields[NameKey] == EncodeThemeName(t.name)
    ensures AuthorKey in r.fields && OptionalString(r.fields, AuthorKey) == t.author
    ensures DarkKey in r.fields && r.fields[DarkKey] == JBool(t.dark)
    ensures ActionSheetKey in r.fields && r.fields[ActionSheetKey] == sheet
    ensures forall k :: k in t.sections && IsSectionKey(k) ==> k in r.fields && r.fields[k] == t.sections[k]
  {
    var author := match t.author case Some(s) => JString(s) case None => JNull;
    JObject(t.sections[NameKey := EncodeThemeName(t.name)][AuthorKey := author][DarkKey := JBool(t.dark)][ActionSheetKey := sheet])
  }

  /** The theme encoder as written, using the action-sheet encoder as written. */
  function EncodeThemeAsWritten(t: Theme): (r: Json)
    requires ValidTheme(t)
    ensures r.JObject? && ActionSheetKey in r.fields && r.fields[ActionSheetKey] == EncodeActionSheetAsWritten(t.actionSheet)
  {
    EncodeThemeWith(t, EncodeActionSheetAsWritten(t.actionSheet))
  }

  /** The theme encoder with the corrected action-sheet encoder. */
  function EncodeTheme(t: Theme): (r: Json)
    requires ValidTheme(t)
    ensures r.JObject? && ActionSheetKey in r.fields && r.fields[ActionSheetKey] == EncodeActionSheet(t.actionSheet)
  {
    EncodeThemeWith(t, EncodeActionSheet(t.actionSheet))
  }

  /** As written, no theme decodes from its own encoding. */
  lemma ThemeAsWrittenRejectsOwnOutput(t: Theme, parse: string -> Option<Color>)
    requires ValidTheme(t)
    ensures DecodeTheme(EncodeThemeAsWritten(t), parse).Failure?
  {
    EncodedThemeFields(t, EncodeActionSheetAsWritten(t.actionSheet));
    ActionSheetAsWrittenRejectsOwnOutput(t.actionSheet, parse);
  }

  /** With the corrected action-sheet encoder, a theme with a custom name survives a round trip. */
  lemma ThemeRoundTrip(t: Theme, parse: string -> Option<Color>)
    requires ValidTheme(t) && ReadsHexColors(parse) && t.name.CustomTheme?
    ensures DecodeTheme(EncodeTheme(t), parse) == Success(t)
  {
    EncodedThemeFields(t, EncodeActionSheet(t.actionSheet));
    ActionSheetRoundTrip(t.actionSheet, parse);
  }

  /** What each step of the theme decoder reads from an encoded theme. */
  lemma EncodedThemeFields(t: Theme, sheet: Json)
    requires ValidTheme(t)
    ensures var fields := EncodeThemeWith(t, sheet).fields;
            var before := RequiredAll(fields, SectionsBeforeSheet);
            var after := RequiredAll(fields, SectionsAfterSheet);
            && Required(fields, NameKey) == Success(EncodeThemeName(t.name))
            && before.Success? && after.Success? && before.value + after.value == t.sections
            && Required(fields, ActionSheetKey) == Success(sheet)
            && OptionalString(fields, AuthorKey) == t.author
            && BoolOrFalse(fields, DarkKey) == t.dark
  {
    var fields := EncodeThemeWith(t, sheet).fields;
    SectionKeys();
    ThemeSectionsRead(t, fields);
  }

  /** Fields holding a theme's sections give back exactly those sections. */
  lemma ThemeSectionsRead(t: Theme, fields: map<Key, Json>)
    requires ValidTheme(t)
    requires forall k :: k in t.sections && IsSectionKey(k) ==> k in fields && fields[k] == t.sections[k]
    ensures var before := RequiredAll(fields, SectionsBeforeSheet);
            var after := RequiredAll(fields, SectionsAfterSheet);
            before.Success? && after.Success? && before.value + after.value == t.sections
  {
    SectionKeys();
    var before := SectionListRead(t, fields, SectionsBeforeSheet);
    var after := SectionListRead(t, fields, SectionsAfterSheet);
    MapFromParts(t.sections, before, after, SectionsBeforeSheet, SectionsAfterSheet);
  }

  /** A list of the theme's section keys is read back as those sections. */
  lemma SectionListRead(t: Theme, fields: map<Key, Json>, keys: seq<Key>) returns (m: map<Key, Json>)
    requires forall k :: k in keys ==> k in t.sections && IsSectionKey(k)
    requires forall k :: k in t.sections && IsSectionKey(k) ==> k in fields && fields[k] == t.sections[k]
    ensures RequiredAll(fields, keys) == Success(m)
    ensures forall k :: k in m <==> k in keys
    ensures forall k :: k in keys ==> m[k] == t.sections[k]
  {
    m := RequiredAll(fields, keys).value;
  }

  /** A map is the union of two maps that agree with it and cover its keys between them. */
  lemma MapFromParts<K, V>(m: map<K, V>, a: map<K, V>, b: map<K, V>, ka: seq<K>, kb: seq<K>)
    requires forall k :: k in a <==> k in ka
    requires forall k :: k in b <==> k in kb
    requires forall k :: k in m <==> k in ka || k in kb
    requires forall k :: k in ka ==> a[k] == m[k]
    requires forall k :: k in kb ==> b[k] == m[k]
    ensures a + b == m
  {
  }

  /** RequiredAll sees only the keys it is asked for. */
  lemma {:induction false} RequiredAllReadsOnlyKeys(fields: map<Key, Json>, fields': map<Key, Json>, keys: seq<Key>)
    requires forall k :: k in keys ==> (k in fields <==> k in fields')
    requires forall k :: k in keys && k in fields ==> fields[k] == fields'[k]
    ensures RequiredAll(fields, keys) == RequiredAll(fields', keys)
  {
    if |keys| > 0 {
      assert forall k :: k in keys[1..] ==> k in keys;
      RequiredAllReadsOnlyKeys(fields, fields', keys[1..]);
    }
  }

  /** A decoding result with author and dark reset to their defaults. */
  function WithoutOptionalFields(r: Result<Theme, DecodeError>): Result<Theme, DecodeError> {
    match r
    case Success(t) => Success(t.(author := None, dark := false))
    case Failure(e) => Failure(e)
  }

  /**
   * Author and dark are optional: removing them from the input gives the same
   * outcome, with nil and false in their place, and the same error otherwise.
   */
  lemma ThemeOptionalFields(fields: map<Key, Json>, parse: string -> Option<Color>)
    ensures var r' := DecodeTheme(JObject(fields - {AuthorKey, DarkKey}), parse);
            && r' == WithoutOptionalFields(DecodeTheme(JObject(fields), parse))
            && (r'.Success? ==> r'.value.author == None && !r'.value.dark)
  {
    RequiredStepsIgnoreOptionalFields(fields);
    SameReadsSameTheme(fields, fields - {AuthorKey, DarkKey}, parse);
  }

  /**
   * Two objects whose required steps read the same values, the second without
   * author and dark, decode to the same theme but for those two fields.
   */
  lemma SameReadsSameTheme(fields: map<Key, Json>, f': map<Key, Json>, parse: string -> Option<Color>)
    requires Required(fields, NameKey) == Required(f', NameKey)
    requires RequiredAll(fields, SectionsBeforeSheet) == RequiredAll(f', SectionsBeforeSheet)
    requires Required(fields, ActionSheetKey) == Required(f', ActionSheetKey)
    requires RequiredAll(fields, SectionsAfterSheet) == RequiredAll(f', SectionsAfterSheet)
    requires OptionalString(f', AuthorKey) == None && !BoolOrFalse(f', DarkKey)
    ensures DecodeTheme(JObject(f'), parse) == WithoutOptionalFields(DecodeTheme(JObject(fields), parse))
  {
    var name := Required(fields, NameKey);
    var before := RequiredAll(fields, SectionsBeforeSheet);
    var sheet := Required(fields, ActionSheetKey);
    var after := RequiredAll(fields, SectionsAfterSheet);
    if name.Success? && DecodeThemeName(name.value).Success? && before.Success? && sheet.Success?
       && DecodeActionSheet(sheet.value, parse).Success? && after.Success?
    {
      var t := Theme(DecodeThemeName(name.value).value, None, false, before.value + after.value,
                     DecodeActionSheet(sheet.value, parse).value);
      assert DecodeTheme(JObject(f'), parse) == Success(t);
    }
  }

  /** The required steps of the theme decoder read the same values with or without author and dark. */
  lemma RequiredStepsIgnoreOptionalFields(fields: map<Key, Json>)
    ensures var f' := fields - {AuthorKey, DarkKey};
            && Required(fields, NameKey) == Required(f', NameKey)
            && RequiredAll(fields, SectionsBeforeSheet) == RequiredAll(f', SectionsBeforeSheet)
            && Required(fields, ActionSheetKey) == Required(f', ActionSheetKey)
            && RequiredAll(fields, SectionsAfterSheet) == RequiredAll(f', SectionsAfterSheet)
            && OptionalString(f', AuthorKey) == None && !BoolOrFalse(f', DarkKey)
  {
    var f' := fields - {AuthorKey, DarkKey};
    SectionKeys();
    SectionsUnaffected(fields, f', SectionsBeforeSheet);
    SectionsUnaffected(fields, f', SectionsAfterSheet);
  }

  /** Removing author and dark leaves the value of every list of section keys alone. */
  lemma SectionsUnaffected(fields: map<Key, Json>, f': map<Key, Json>, keys: seq<Key>)
    requires f' == fields - {AuthorKey, DarkKey}
    requires forall k :: k in keys ==> IsSectionKey(k)
    ensures RequiredAll(fields, keys) == RequiredAll(f', keys)
  {
    RequiredAllReadsOnlyKeys(fields, f', keys);
  }

  /** Every required key must be present. */
  lemma ThemeRequiresKeys(fields: map<Key, Json>, key: Key, parse: string -> Option<Color>)
    requires key in RequiredThemeKeys && key !in fields
    ensures DecodeTheme(JObject(fields), parse).Failure?
  {
  }
}
