/**
 * The key-wise merges of saved and imported data. Values are already-parsed
 * JSON; an object is a map from keys to values, and the object spread
 * `{...a, ...b}` is map union with `b` winning on shared keys.
 */
module Persistence {
  import opened Wrappers
  import opened Timer
  import opened Statistics

  datatype Json = JNull | JBool(b: bool) | JNum(n: int) | JStr(s: string) | JArr(items: seq<Json>) | JObj(fields: Record)

  type Record = map<string, Json>

  /** `v.key`; `None` is `undefined`. */
  function Member(v: Json, key: string): Option<Json> {
    if v.JObj? && key in v.fields then Some(v.fields[key]) else None
  }

  function Get(r: Record, key: string): Option<Json> {
    if key in r then Some(r[key]) else None
  }

  /** JavaScript truthiness of a possibly undefined value. */
  predicate Truthy(v: Option<Json>) {
    match v
    case None => false
    case Some(JNull) => false
    case Some(JBool(b)) => b
    case Some(JNum(n)) => n != 0
    case Some(JStr(s)) => s != ""
    case Some(_) => true
  }

  /** `{...v}`: the keys of an object; `undefined`, `null`, booleans and numbers give none. */
  function Spread(v: Option<Json>): Record {
    if v.Some? && v.value.JObj? then v.value.fields else map[]
  }

  /** The group `g` of a record, as the object a spread copies from. */
  function Group(r: Record, g: string): Record {
    Spread(Get(r, g))
  }

  /** `r` has every key of `over` with its value there, and every other key of `base` with its value there. */
  ghost predicate Overlays(r: Record, base: Record, over: Record) {
    && r.Keys == base.Keys + over.Keys
    && (forall k :: k in over ==> k in r && r[k] == over[k])
    && (forall k :: k in base && k !in over ==> k in r && r[k] == base[k])
  }

  /** The spread `{...base, ...over}` overlays `over` on `base`. */
  lemma SpreadOverlays(base: Record, over: Record)
    ensures Overlays(base + over, base, over)
  {
  }

  /** `r.g = { ...r.g, ...over }`: the group `g` gets the keys of `over` spread over its own. */
  function SpreadInto(r: Record, g: string, over: Option<Json>): (r': Record)
    ensures forall k :: k != g ==> Get(r', k) == Get(r, k)
    ensures g in r' && r'[g].JObj? && Overlays(r'[g].fields, Group(r, g), Spread(over))
  {
    r[g := JObj(Group(r, g) + Spread(over))]
  }

  /** What `loadDataFromStorage` leaves in group `g`: the saved group if there is one, else the default group. */
  predicate LoadedAsSaved(r: Record, defaults: Record, loaded: Record, g: string) {
    Get(r, g) == Some(JObj(if g in loaded then Spread(Some(loaded[g])) else Group(defaults, g)))
  }

  function ModeName(m: Mode): string {
    match m
    case Work => "work"
    case ShortBreak => "short-break"
    case LongBreak => "long-break"
  }

  function SettingsRecord(s: Settings): Record {
    map[
      "workDuration" := JNum(s.workDuration),
      "shortBreakDuration" := JNum(s.shortBreakDuration),
      "longBreakDuration" := JNum(s.longBreakDuration),
      "longBreakInterval" := JNum(s.longBreakInterval),
      "enableNotifications" := JBool(s.enableNotifications),
      "enableSounds" := JBool(s.enableSounds),
      "soundVolume" := JNum(s.soundVolume),
      "autoStartBreaks" := JBool(s.autoStartBreaks),
      "autoStartPomodoros" := JBool(s.autoStartPomodoros)]
  }

  function StatsRecord(s: Stats): Record {
    map[
      "todayPomodoros" := JNum(s.todayPomodoros),
      "weekPomodoros" := JNum(s.weekPomodoros),
      "todayFocusTime" := JNum(s.todayFocusTime),
      "tasksCompleted" := JNum(s.tasksCompleted),
      "weeklyData" := JArr(seq(|s.weeklyData|, i requires 0 <= i < |s.weeklyData| => JNum(s.weeklyData[i])))]
  }

  /** The state object the constructor builds, before anything is loaded. */
  function DefaultState(): Record {
    map[
      "currentMode" := JStr(ModeName(Work)),
      "timeRemaining" := JNum(TotalSeconds(DefaultSettings, Work)),
      "isRunning" := JBool(false),
      "isPaused" := JBool(false),
      "currentTask" := JNull,
      "pomodoroCount" := JNum(0),
      "completedPomodoros" := JNum(0),
      "tasks" := JArr([]),
      "settings" := JObj(SettingsRecord(DefaultSettings)),
      "stats" := JObj(StatsRecord(DefaultStats))]
  }

  /**
   * What `loadDataFromStorage` reads: nothing (no entry, or the empty
   * string), text that `JSON.parse` rejects, or the parsed document.
   */
  datatype Stored = NotStored | Unparseable | Parsed(doc: Json)

  /** `data.state`, when a document was parsed. */
  function SavedState(stored: Stored): Option<Json> {
    if stored.Parsed? then Member(stored.doc, "state") else None
  }

  /**
   * Whether loading throws: `JSON.parse` rejects the text, or the document
   * is `null` and `data.state` is read from it. The catch block's notice
   * then throws again, because the notification element is looked up only
   * after loading, so the exception leaves the constructor.
   */
  predicate LoadThrows(stored: Stored) {
    stored == Unparseable || stored == Parsed(JNull)
  }

  /**
   * `loadDataFromStorage` as written, from the current state `defaults`;
   * `None` when the exception escapes and the application does not start.
   * Otherwise the saved `state`, if truthy, is spread over the defaults; then
   * each of `settings` and `stats` is set to the spread of the group just
   * loaded with the saved group, which is the saved group again.
   */
  function LoadState(defaults: Record, stored: Stored): (r: Option<Record>)
    ensures r.None? <==> LoadThrows(stored)
    ensures !LoadThrows(stored) && !Truthy(SavedState(stored)) ==> r == Some(defaults)
    ensures Truthy(SavedState(stored)) ==>
      var loaded := Spread(SavedState(stored));
      && r.Some?
      && (forall k :: k != "settings" && k != "stats" ==>
            Get(r.value, k) == if k in loaded then Some(loaded[k]) else Get(defaults, k))
      && LoadedAsSaved(r.value, defaults, loaded, "settings")
      && LoadedAsSaved(r.value, defaults, loaded, "stats")
  {
    if LoadThrows(stored) then None
    else
      var data := SavedState(stored);
      if !Truthy(data) then Some(defaults)
      else
        var loaded := Spread(data);
        var merged := defaults + loaded;
        var r1 := SpreadInto(merged, "settings", Member(data.value, "settings"));
        var r2 := SpreadInto(r1, "stats", Member(data.value, "stats"));
        assert Group(r1, "stats") == Group(merged, "stats");
        SpreadSelf(merged, defaults, loaded, r1, "settings", data.value);
        SpreadSelf(r1, defaults, loaded, r2, "stats", data.value);
        Some(r2)
  }

  /** A stored `null` or unparseable text stops the application from starting. */
  lemma LoadOfNullAborts(defaults: Record)
    ensures LoadState(defaults, Parsed(JNull)).None?
    ensures LoadState(defaults, Unparseable).None?
  {
  }

  /** Spreading the just-loaded group over itself gives it back. */
  lemma SpreadSelf(before: Record, defaults: Record, loaded: Record, after: Record, g: string, data: Json)
    requires loaded == Spread(Some(data))
    requires Group(before, g) == Group(defaults + loaded, g)
    requires g in after && after[g].JObj? && Overlays(after[g].fields, Group(before, g), Spread(Member(data, g)))
    ensures LoadedAsSaved(after, defaults, loaded, g)
  {
    var expected := if g in loaded then Spread(Some(loaded[g])) else Group(defaults, g);
    assert Group(before, g) == expected;
    assert Spread(Member(data, g)) == if g in loaded then expected else map[];
    assert after[g].fields == expected;
  }

  /** A saved settings object is loaded as it is: a key it lacks stays absent although the defaults have it. */
  lemma LoadKeepsSavedSettingsAsIs(defaults: Record, saved: Json, fields: Record)
    requires Member(saved, "state").Some? && Member(saved, "state").value.JObj?
    requires Member(Member(saved, "state").value, "settings") == Some(JObj(fields))
    ensures LoadState(defaults, Parsed(saved)).Some?
    ensures Get(LoadState(defaults, Parsed(saved)).value, "settings") == Some(JObj(fields))
  {
  }

  /** An old save whose settings lack `autoStartPomodoros` loads without that setting. */
  lemma LoadDropsMissingSettingDefault()
    ensures var saved := JObj(map["state" := JObj(map["settings" := JObj(map["workDuration" := JNum(50)])])]);
            var r := LoadState(DefaultState(), Parsed(saved));
            && "autoStartPomodoros" in Group(DefaultState(), "settings")
            && r.Some? && "settings" in r.value && r.value["settings"].JObj?
            && "autoStartPomodoros" !in r.value["settings"].fields
  {
    var saved := JObj(map["state" := JObj(map["settings" := JObj(map["workDuration" := JNum(50)])])]);
    LoadKeepsSavedSettingsAsIs(DefaultState(), saved, map["workDuration" := JNum(50)]);
    assert Group(DefaultState(), "settings") == SettingsRecord(DefaultSettings);
  }

  /**
   * `loadDataFromStorage` as intended: a document that does not load leaves
   * the defaults (the catch block's notice aside), and each of `settings` and
   * `stats` spreads the saved group over the DEFAULT group, so a key the
   * saved group lacks keeps its default, as the comment at the second merge
   * says.
   */
  function LoadStateFilled(defaults: Record, stored: Stored): (r: Record)
    ensures !Truthy(SavedState(stored)) ==> r == defaults
    ensures Truthy(SavedState(stored)) ==>
      var loaded := Spread(SavedState(stored));
      && (forall k :: k != "settings" && k != "stats" ==>
            Get(r, k) == if k in loaded then Some(loaded[k]) else Get(defaults, k))
      && "settings" in r && r["settings"].JObj?
      && Overlays(r["settings"].fields, Group(defaults, "settings"), Spread(Get(loaded, "settings")))
      && "stats" in r && r["stats"].JObj?
      && Overlays(r["stats"].fields, Group(defaults, "stats"), Spread(Get(loaded, "stats")))
  {
    var data := SavedState(stored);
    if !Truthy(data) then defaults
    else
      var merged := defaults + Spread(data);
      assert Spread(Member(data.value, "settings")) == Spread(Get(Spread(data), "settings"));
      assert Spread(Member(data.value, "stats")) == Spread(Get(Spread(data), "stats"));
      var r1 := merged["settings" := JObj(Group(defaults, "settings") + Spread(Member(data.value, "settings")))];
      r1["stats" := JObj(Group(defaults, "stats") + Spread(Member(data.value, "stats")))]
  }

  /** With the intended merge, every default setting survives loading an old save. */
  lemma LoadFilledKeepsEveryDefault(saved: Json, g: string, k: string)
    requires Truthy(Member(saved, "state"))
    requires g == "settings" || g == "stats"
    requires k in Group(DefaultState(), g)
    ensures g in LoadStateFilled(DefaultState(), Parsed(saved))
    ensures k in Group(LoadStateFilled(DefaultState(), Parsed(saved)), g)
  {
  }

  /** With the intended handling, a document that does not load leaves the default state. */
  lemma LoadFilledRecoversDefaults(defaults: Record, stored: Stored)
    requires LoadThrows(stored)
    ensures LoadStateFilled(defaults, stored) == defaults
  {
  }

  /**
   * The merge of `importData`, once the user has confirmed (`confirmed`):
   * `tasks` is replaced if the document has a truthy `tasks`; `stats` and
   * `settings` each get the document's keys spread over the current ones.
   */
  function ImportData(current: Record, imported: Json, confirmed: bool): (r: Record)
    ensures !confirmed ==> r == current
    ensures forall k :: k != "tasks" && k != "stats" && k != "settings" ==> Get(r, k) == Get(current, k)
    ensures Get(r, "tasks") ==
      if confirmed && Truthy(Member(imported, "tasks")) then Member(imported, "tasks") else Get(current, "tasks")
    ensures ImportedGroup(r, current, imported, confirmed, "stats")
    ensures ImportedGroup(r, current, imported, confirmed, "settings")
  {
    if !confirmed then current
    else
      var tasks := Member(imported, "tasks");
      var stats := Member(imported, "stats");
      var settings := Member(imported, "settings");
      var r1 := if Truthy(tasks) then current["tasks" := tasks.value] else current;
      var r2 := if Truthy(stats) then SpreadInto(r1, "stats", stats) else r1;
      assert Group(r2, "settings") == Group(current, "settings");
      if Truthy(settings) then SpreadInto(r2, "settings", settings) else r2
  }

  /** Group `g` after an import: the document's keys over the current ones if it has a truthy `g`, else unchanged. */
  ghost predicate ImportedGroup(r: Record, current: Record, imported: Json, confirmed: bool, g: string) {
    if confirmed && Truthy(Member(imported, g))
    then g in r && r[g].JObj? && Overlays(r[g].fields, Group(current, g), Spread(Member(imported, g)))
    else Get(r, g) == Get(current, g)
  }
}
