/**
 * The "use less data for calls" settings screen: its four list entries
 * (three options with a check mark and an explanation), their identity and
 * order, the option titles, and the settings change a tap makes.
 *
 * The localized strings are a parameter. Which option the screen shows as
 * current is computed from the call and auto-download settings by a
 * function outside this model; the screen's entries take it as given.
 */
module VoiceCallDataSaving {

  /** When calls use less data. The last case has no option of its own on this screen. */
  datatype DataSaving = Never | Cellular | Always | Default

  /** The localized strings the screen uses. */
  datatype Strings = Strings(never: string, onMobile: string, always: string, useLessDataLongDescription: string)

  /** A presentation theme, compared by identity (`===`) in the source. */
  datatype ThemeRef = ThemeRef(identity: int)

  datatype Entry =
    | NeverEntry(theme: ThemeRef, text: string, checked: bool)
    | CellularEntry(theme: ThemeRef, text: string, checked: bool)
    | AlwaysEntry(theme: ThemeRef, text: string, checked: bool)
    | InfoEntry(theme: ThemeRef, text: string)

  function StableId(e: Entry): (r: int)
    ensures 0 <= r < 4
  {
    match e
    case NeverEntry(_, _, _) => 0
    case CellularEntry(_, _, _) => 1
    case AlwaysEntry(_, _, _) => 2
    case InfoEntry(_, _) => 3
  }

  /** `<`: by stable id. */
  predicate EntryLess(lhs: Entry, rhs: Entry) {
    StableId(lhs) < StableId(rhs)
  }

  /** The option a tap on the entry selects; the explanation selects nothing. */
  function Action(e: Entry): (r: DataSaving)
    requires !e.InfoEntry?
    ensures r != Default
  {
    match e
    case NeverEntry(_, _, _) => Never
    case CellularEntry(_, _, _) => Cellular
    case AlwaysEntry(_, _, _) => Always
  }

  /** `stringForDataSavingOption`: the title of an option; options without an entry have none. */
  function OptionTitle(option: DataSaving, strings: Strings): (r: string)
    ensures option == Default ==> r == ""
    ensures option == Never ==> r == strings.never
    ensures option == Cellular ==> r == strings.onMobile
    ensures option == Always ==> r == strings.always
  {
    match option
    case Never => strings.never
    case Cellular => strings.onMobile
    case Always => strings.always
    case Default => ""
  }

  /** `voiceCallDataSavingControllerEntries`. */
  function Entries(theme: ThemeRef, strings: Strings, dataSaving: DataSaving): (r: seq<Entry>)
    ensures |r| == 4
    ensures forall i :: 0 <= i < 4 ==> StableId(r[i]) == i && r[i].theme == theme
    ensures forall i, j :: 0 <= i < j < 4 ==> EntryLess(r[i], r[j])
    ensures r[3] == InfoEntry(theme, strings.useLessDataLongDescription)
    ensures forall i :: 0 <= i < 3 ==> !r[i].InfoEntry?
    ensures forall i :: 0 <= i < 3 ==> r[i].text == OptionTitle(Action(r[i]), strings)
    ensures forall i :: 0 <= i < 3 ==> (r[i].checked <==> Action(r[i]) == dataSaving)
  {
    [ NeverEntry(theme, OptionTitle(Never, strings), dataSaving == Never),
      CellularEntry(theme, OptionTitle(Cellular, strings), dataSaving == Cellular),
      AlwaysEntry(theme, OptionTitle(Always, strings), dataSaving == Always),
      InfoEntry(theme, strings.useLessDataLongDescription) ]
  }

  /**
   * At most one option is checked, and exactly one unless the current
   * setting has no entry of its own.
   */
  lemma AtMostOneChecked(theme: ThemeRef, strings: Strings, dataSaving: DataSaving)
    ensures var r := Entries(theme, strings, dataSaving);
            && (forall i, j :: 0 <= i < j < 3 ==> !(r[i].checked && r[j].checked))
            && ((exists i :: 0 <= i < 3 && r[i].checked) <==> dataSaving != Default)
  {
    var r := Entries(theme, strings, dataSaving);
    if dataSaving != Default {
      var i := match dataSaving case Never => 0 case Cellular => 1 case Always => 2 case Default => 0;
      assert r[i].checked;
    }
  }

  /** The call settings: the data-saving option and the fields this screen does not touch. */
  datatype VoiceCallSettings<Rest> = VoiceCallSettings(dataSaving: DataSaving, rest: Rest)

  /** `updateSelection`: the tapped option becomes the setting; nothing else changes. */
  function UpdateSelection<Rest>(current: VoiceCallSettings<Rest>, option: DataSaving): (r: VoiceCallSettings<Rest>)
    ensures r.dataSaving == option && r.rest == current.rest
  {
    current.(dataSaving := option)
  }

  /**
   * Tapping an option and showing the updated setting checks the tapped
   * entry and no other.
   */
  lemma TapChecksTappedEntry<Rest>(theme: ThemeRef, strings: Strings, current: VoiceCallSettings<Rest>, tapped: int)
    requires 0 <= tapped < 3
    ensures var before := Entries(theme, strings, current.dataSaving);
            var after := Entries(theme, strings, UpdateSelection(current, Action(before[tapped])).dataSaving);
            forall i :: 0 <= i < 3 ==> (after[i].checked <==> i == tapped)
  {
  }
}
