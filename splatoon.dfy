/** splatoon.py: the time left on a schedule item, merging and searching the schedule, the
    stage notification text, and the parts of the Splatoon 2 API's JSON that matches,
    Salmon Run weapons and ranks are read from. */
module Splatoon {
  import opened Wrappers
  import opened Strings
  import opened Sorting
  import opened Seqs
  import opened JsonData

  // ---------------------------------------------------------------------------
  // Stage, Weapon, get_salmon_weapons

  datatype Stage = Stage(name: Json, sid: Json)

  /** `Stage(data)`. */
  function StageOf(data: Json): Result<Stage, JsonError>
  {
    var name :- Member(data, "name");
    var sid :- Member(data, "id");
    Success(Stage(name, sid))
  }

  datatype Weapon = Weapon(wid: Json, name: Json, image: Json, thumbnail: Json)

  /** `Weapon(entry)`: the four keys are read in the order id, name, image, thumbnail. */
  function WeaponOf(entry: Json): Result<Weapon, JsonError>
  {
    var wid :- Member(entry, "id");
    var name :- Member(entry, "name");
    var image :- Member(entry, "image");
    var thumbnail :- Member(entry, "thumbnail");
    Success(Weapon(wid, name, image, thumbnail))
  }

  /** The keys a Salmon Run weapon entry has besides the one that names its kind. */
  const WeaponFields: seq<string> := ["image", "id", "name", "thumbnail"]

  /** The keys that are not weapon fields, in order. */
  function OtherKeys(keys: seq<string>): (r: seq<string>)
  {
    if |keys| == 0 then []
    else OtherKeys(keys[..|keys| - 1]) + (if keys[|keys| - 1] !in WeaponFields then [keys[|keys| - 1]] else [])
  }

  /** The first key that is not a weapon field is the first of OtherKeys. */
  lemma {:induction false} OtherKeysFirst(keys: seq<string>)
    ensures |OtherKeys(keys)| == 0 <==> forall j :: 0 <= j < |keys| ==> keys[j] in WeaponFields
    ensures |OtherKeys(keys)| > 0 ==>
      exists i :: 0 <= i < |keys| && keys[i] == OtherKeys(keys)[0]
                  && forall j :: 0 <= j < i ==> keys[j] in WeaponFields
  {
    if |keys| > 0 {
      var init := keys[..|keys| - 1];
      OtherKeysFirst(init);
      if |OtherKeys(init)| > 0 {
        var i :| 0 <= i < |init| && init[i] == OtherKeys(init)[0] && forall j :: 0 <= j < i ==> init[j] in WeaponFields;
        assert keys[i] == OtherKeys(keys)[0];
      } else if keys[|keys| - 1] !in WeaponFields {
        assert keys[|keys| - 1] == OtherKeys(keys)[0];
      }
    }
  }

  /** One element of get_salmon_weapons: the entry under the first key that is not a weapon
      field. A non-dict has no `.keys()`; a dict with only weapon fields has no `[0]`. */
  function SalmonWeapon(weapon: Json): Result<Weapon, JsonError>
  {
    match weapon
    case JObject(members) =>
      var others := OtherKeys(Keys(members));
      if |others| == 0 then Failure(IndexError)
      else
        var entry :- Find(members, others[0]);
        WeaponOf(entry)
    case _ => Failure(AttributeError)
  }

  /** A weapon is built from the value of the first member whose key is not a weapon field;
      a dict whose keys are all weapon fields raises IndexError. */
  lemma SalmonWeaponKey(members: seq<(string, Json)>)
    ensures (forall j :: 0 <= j < |members| ==> members[j].0 in WeaponFields) ==>
      SalmonWeapon(JObject(members)) == Failure(IndexError)
    ensures (exists j :: 0 <= j < |members| && members[j].0 !in WeaponFields) ==>
      exists i :: 0 <= i < |members| && members[i].0 !in WeaponFields
        && (forall j :: 0 <= j < i ==> members[j].0 in WeaponFields)
        && SalmonWeapon(JObject(members)) == WeaponOf(members[i].1)
  {
    var keys := Keys(members);
    assert forall j :: 0 <= j < |members| ==> keys[j] == members[j].0;
    OtherKeysFirst(keys);
    if |OtherKeys(keys)| > 0 {
      var i :| 0 <= i < |keys| && keys[i] == OtherKeys(keys)[0] && forall j :: 0 <= j < i ==> keys[j] in WeaponFields;
      OtherKeysExcluded(keys, 0);
      FindAt(members, keys[i], i);
      assert SalmonWeapon(JObject(members)) == WeaponOf(members[i].1);
      assert members[i].0 !in WeaponFields && forall j :: 0 <= j < i ==> members[j].0 in WeaponFields;
    } else {
      assert forall j :: 0 <= j < |members| ==> members[j].0 in WeaponFields;
    }
  }

  lemma {:induction false} OtherKeysExcluded(keys: seq<string>, k: nat)
    requires k < |OtherKeys(keys)|
    ensures OtherKeys(keys)[k] !in WeaponFields
  {
    var init := keys[..|keys| - 1];
    if k < |OtherKeys(init)| {
      OtherKeysExcluded(init, k);
    }
  }

  function SalmonWeaponOf(): Json -> Result<Weapon, JsonError>
  {
    w => SalmonWeapon(w)
  }

  /** splatoon.get_salmon_weapons: one weapon per entry, in order; the first failing entry raises. */
  method SalmonWeapons(weapons: seq<Json>) returns (r: Result<seq<Weapon>, JsonError>)
    ensures r == MapResult(weapons, SalmonWeaponOf())
  {
    var result: seq<Weapon> := [];
    var i := 0;
    while i < |weapons|
      invariant 0 <= i <= |weapons|
      invariant MapResult(weapons[..i], SalmonWeaponOf()) == Success(result)
    {
      MapResultStep(weapons, SalmonWeaponOf(), i);
      var weapon := SalmonWeapon(weapons[i]);
      if weapon.Failure? {
        MapResultStops(weapons, SalmonWeaponOf(), i + 1);
        return Failure(weapon.error);
      }
      result := result + [weapon.value];
      i := i + 1;
    }
    assert weapons[..i] == weapons;
    r := Success(result);
  }

  /** get_salmon_weapons keeps length and order: weapon i comes from entry i. */
  lemma SalmonWeaponsOrder(weapons: seq<Json>, i: nat)
    requires MapResult(weapons, SalmonWeaponOf()).Success? && i < |weapons|
    ensures |MapResult(weapons, SalmonWeaponOf()).value| == |weapons|
    ensures SalmonWeapon(weapons[i]) == Success(MapResult(weapons, SalmonWeaponOf()).value[i])
  {
    MapResultAt(weapons, SalmonWeaponOf(), i);
  }

  // ---------------------------------------------------------------------------
  // Match

  datatype Match = Match(result: Json, stage: Stage, ruleset: Json, gamemode: Json, symbol: char, weapon: Json)

  /** `Match(data)`: the fields are read in the order the constructor reads them. The symbol
      is 'W' exactly when the team result key is the string "victory", and 'L' otherwise. */
  function MatchOf(data: Json): (r: Result<Match, JsonError>)
    ensures r.Success? ==> Path(data, ["my_team_result", "key"]) == Success(r.value.result)
    ensures r.Success? ==> (r.value.symbol == 'W' <==> r.value.result == JString("victory"))
    ensures r.Success? ==> r.value.symbol in {'W', 'L'}
  {
    var result :- Path(data, ["my_team_result", "key"]);
    var stageData :- Member(data, "stage");
    var stage :- StageOf(stageData);
    var ruleset :- Path(data, ["rule", "name"]);
    var gamemode :- Path(data, ["game_mode", "name"]);
    var symbol := if result == JString("victory") then 'W' else 'L';
    var weapon :- Path(data, ["player_result", "player", "weapon", "name"]);
    Success(Match(result, stage, ruleset, gamemode, symbol, weapon))
  }

  // ---------------------------------------------------------------------------
  // get_ranks

  /** `records['records']['player'][key]['name']`. */
  function Rank(records: Json, key: string): Result<Json, JsonError>
  {
    Path(records, ["records", "player", key, "name"])
  }

  /** The four ranked modes as (display name, records key), in the order the dict is built. */
  const RankModes: seq<(string, string)> :=
    [("Splat Zones", "udemae_zones"), ("Tower Control", "udemae_tower"),
     ("Rainmaker", "udemae_rainmaker"), ("Clam Blitz", "udemae_clam")]

  /** splatoon.get_ranks: the first mode whose lookup fails raises. */
  function Ranks(records: Json): Result<map<string, Json>, JsonError>
  {
    var zones :- Rank(records, "udemae_zones");
    var tower :- Rank(records, "udemae_tower");
    var rainmaker :- Rank(records, "udemae_rainmaker");
    var clam :- Rank(records, "udemae_clam");
    Success(map["Splat Zones" := zones, "Tower Control" := tower, "Rainmaker" := rainmaker, "Clam Blitz" := clam])
  }

  /** get_ranks has exactly the four display names as keys, each mapped to its mode's rank
      name; it fails exactly when one of the four lookups does. */
  lemma RanksModes(records: Json)
    ensures Ranks(records).Success? <==> forall m :: 0 <= m < |RankModes| ==> Rank(records, RankModes[m].1).Success?
    ensures Ranks(records).Success? ==>
      && Ranks(records).value.Keys == (set m | 0 <= m < |RankModes| :: RankModes[m].0)
      && forall m :: 0 <= m < |RankModes| ==> Rank(records, RankModes[m].1) == Success(Ranks(records).value[RankModes[m].0])
  {
    var r := Ranks(records);
    if r.Success? {
      var displays := set m | 0 <= m < |RankModes| :: RankModes[m].0;
      assert displays == {"Splat Zones", "Tower Control", "Rainmaker", "Clam Blitz"} by {
        assert RankModes[0].0 in displays && RankModes[1].0 in displays;
        assert RankModes[2].0 in displays && RankModes[3].0 in displays;
      }
    } else {
      assert !Rank(records, RankModes[0].1).Success? || !Rank(records, RankModes[1].1).Success?
        || !Rank(records, RankModes[2].1).Success? || !Rank(records, RankModes[3].1).Success?;
    }
  }

  // ---------------------------------------------------------------------------
  // Schedule items and duration_remaining

  /** A schedule item: its (name, key) ruleset and gamemode, the names of its stages, and its
      start and end, as naive datetimes in microseconds (the API's whole seconds times 1000000). */
  datatype ScheduleItem = ScheduleItem(ruleset: (string, string), gamemode: (string, string), stages: seq<string>, start: int, end: int)

  /** GenericScheduleItem.duration_remaining with `now` given: the time until the start, the time
      left before the end, or the time since the end. */
  function DurationRemaining(start: int, end: int, now: int): (r: (int, string))
    ensures r.0 >= 0
    ensures r.1 == "until start" <==> now < start
    ensures r.1 == "remaining" <==> start <= now < end
    ensures r.1 == "ago" <==> start <= now && end <= now
    ensures r.1 == "until start" ==> r.0 > 0 && now + r.0 == start
    ensures r.1 == "remaining" ==> r.0 > 0 && now + r.0 == end
    ensures r.1 == "ago" ==> end + r.0 == now
  {
    if now < start then (start - now, "until start")
    else if now < end then (end - now, "remaining")
    else (now - end, "ago")
  }

  // ---------------------------------------------------------------------------
  // combine_gamemodes

  /** Lists concatenated in order. */
  function Flatten<T>(lists: seq<seq<T>>): seq<T>
  {
    if |lists| == 0 then []
    else Flatten(lists[..|lists| - 1]) + lists[|lists| - 1]
  }

  function SumLengths<T>(lists: seq<seq<T>>): nat
  {
    if |lists| == 0 then 0
    else SumLengths(lists[..|lists| - 1]) + |lists[|lists| - 1]|
  }

  /** A dict's values in key order; the dict is its (key, value) pairs in insertion order. */
  function Values<K, V>(dict: seq<(K, V)>): seq<V>
  {
    seq(|dict|, i requires 0 <= i < |dict| => dict[i].1)
  }

  /** splatoon.combine_gamemodes. */
  method CombineGamemodes<T>(schedule: seq<(string, seq<T>)>) returns (entries: seq<T>)
    ensures entries == Flatten(Values(schedule))
  {
    entries := [];
    var i := 0;
    while i < |schedule|
      invariant 0 <= i <= |schedule|
      invariant entries == Flatten(Values(schedule)[..i])
    {
      assert Values(schedule)[..i + 1][..i] == Values(schedule)[..i];
      entries := entries + schedule[i].1;
      i := i + 1;
    }
    assert Values(schedule)[..i] == Values(schedule);
  }

  /** The combined list is as long as all the lists together. */
  lemma {:induction false} FlattenLength<T>(lists: seq<seq<T>>)
    ensures |Flatten(lists)| == SumLengths(lists)
  {
    if |lists| > 0 {
      FlattenLength(lists[..|lists| - 1]);
    }
  }

  /** Entry j of list i sits after all the entries of the lists before it. */
  lemma {:induction false} FlattenAt<T>(lists: seq<seq<T>>, i: nat, j: nat)
    requires i < |lists| && j < |lists[i]|
    ensures SumLengths(lists[..i]) + j < |Flatten(lists)|
    ensures Flatten(lists)[SumLengths(lists[..i]) + j] == lists[i][j]
  {
    var init := lists[..|lists| - 1];
    FlattenLength(init);
    if i < |lists| - 1 {
      FlattenAt(init, i, j);
      assert init[..i] == lists[..i];
    } else {
      assert lists[..i] == init;
    }
  }

  // ---------------------------------------------------------------------------
  // search_schedule

  /** `focus(x) in args`. */
  function Wanted<V(==)>(focus: ScheduleItem -> V, args: seq<V>): ScheduleItem -> bool
  {
    x => focus(x) in args
  }

  /** `key=lambda x: x.start` in ascending order. */
  function ByStart(): (ScheduleItem, ScheduleItem) -> bool
  {
    (a: ScheduleItem, b: ScheduleItem) => a.start <= b.start
  }

  lemma ByStartIsPreorder()
    ensures TotalPreorder(ByStart())
  {
  }

  /** splatoon.search_schedule with `schedule_` given: the wanted entries, stably sorted by start. */
  function SearchSchedule<V(==)>(focus: ScheduleItem -> V, args: seq<V>, schedule: seq<ScheduleItem>): seq<ScheduleItem>
  {
    StableSort(Filter(schedule, Wanted(focus, args)), ByStart())
  }

  /** The result holds every entry whose focus value is among args, as many times as the
      schedule holds it, and no other; its starts never decrease. */
  lemma SearchScheduleExact<V>(focus: ScheduleItem -> V, args: seq<V>, schedule: seq<ScheduleItem>)
    ensures var r := SearchSchedule(focus, args, schedule);
      && (forall x :: multiset(r)[x] == if focus(x) in args then multiset(schedule)[x] else 0)
      && (forall i, j :: 0 <= i < j < |r| ==> r[i].start <= r[j].start)
  {
    FilterCount(schedule, Wanted(focus, args));
    ByStartIsPreorder();
    StableSortSorted(Filter(schedule, Wanted(focus, args)), ByStart());
  }

  /** Entries that start at the same time as k keep their schedule order. */
  lemma SearchScheduleStable<V>(focus: ScheduleItem -> V, args: seq<V>, schedule: seq<ScheduleItem>, k: ScheduleItem)
    ensures Ties(SearchSchedule(focus, args, schedule), k, ByStart()) == Ties(Filter(schedule, Wanted(focus, args)), k, ByStart())
  {
    ByStartIsPreorder();
    StableSortStable(Filter(schedule, Wanted(focus, args)), k, ByStart());
  }

  // ---------------------------------------------------------------------------
  // stages_notification

  /** An entry of the gamemode list: its key and its display name. */
  datatype Gamemode = Gamemode(id: string, name: string)

  /** The keyword arguments of stages_notification. */
  datatype Options = Options(includeGamemode: bool, includeRuleset: bool, includeStage: bool, includeTime: bool, returnSentence: bool)

  const DefaultOptions := Options(true, false, false, true, true)

  /** The sentence, or the list of groups when `return_sentence` is false. */
  datatype Notification = Sentence(text: string) | Groups(groups: seq<string>)

  /** The words of one block: its ruleset, its stages, its start, each when included. */
  function BlockParts(block: ScheduleItem, opts: Options, startString: ScheduleItem -> string): seq<string>
  {
    (if opts.includeRuleset then [block.ruleset.0] else [])
    + (if opts.includeStage then ["on " + Join(block.stages, " and ")] else [])
    + (if opts.includeTime then ["at " + startString(block)] else [])
  }

  function BlockText(block: ScheduleItem, opts: Options, startString: ScheduleItem -> string): string
  {
    Join(BlockParts(block, opts, startString), " ")
  }

  function Count(flags: seq<bool>): nat
  {
    if |flags| == 0 then 0 else (if flags[0] then 1 else 0) + Count(flags[1..])
  }

  /** A block has one part per included item, ruleset first, stages next, start last. */
  lemma BlockPartsOrder(block: ScheduleItem, opts: Options, startString: ScheduleItem -> string)
    ensures var parts := BlockParts(block, opts, startString);
      && |parts| == Count([opts.includeRuleset, opts.includeStage, opts.includeTime])
      && (opts.includeRuleset ==> parts[0] == block.ruleset.0)
      && (opts.includeStage ==> parts[if opts.includeRuleset then 1 else 0] == "on " + Join(block.stages, " and "))
      && (opts.includeTime ==> parts[|parts| - 1] == "at " + startString(block))
  {
    assert Count([opts.includeTime]) == (if opts.includeTime then 1 else 0);
    assert [opts.includeRuleset, opts.includeStage, opts.includeTime][1..] == [opts.includeStage, opts.includeTime];
    assert [opts.includeStage, opts.includeTime][1..] == [opts.includeTime];
  }

  function InMode(id: string): ScheduleItem -> bool
  {
    (x: ScheduleItem) => x.gamemode.1 == id
  }

  function HasBlocks(blocks: seq<ScheduleItem>): Gamemode -> bool
  {
    (g: Gamemode) => |Filter(blocks, InMode(g.id))| > 0
  }

  /** One gamemode's group: its name when included, then each of its blocks, joined by ": ". */
  function ModeGroup(gamemode: Gamemode, current: seq<ScheduleItem>, opts: Options, startString: ScheduleItem -> string): string
  {
    Join((if opts.includeGamemode then [gamemode.name] else [])
         + seq(|current|, i requires 0 <= i < |current| => BlockText(current[i], opts, startString)), ": ")
  }

  /** The groups of the gamemodes that have blocks, in gamemode order. */
  function NotificationGroups(gamemodes: seq<Gamemode>, blocks: seq<ScheduleItem>, opts: Options, startString: ScheduleItem -> string): seq<string>
  {
    if |gamemodes| == 0 then []
    else
      var init := NotificationGroups(gamemodes[..|gamemodes| - 1], blocks, opts, startString);
      var gamemode := gamemodes[|gamemodes| - 1];
      var current := Filter(blocks, InMode(gamemode.id));
      if |current| == 0 then init else init + [ModeGroup(gamemode, current, opts, startString)]
  }

  function Notify(groups: seq<string>, opts: Options): Notification
  {
    if opts.returnSentence then Sentence(Join(groups, ". ")) else Groups(groups)
  }

  /** There is one group per gamemode that has blocks, in gamemode order, each holding the
      blocks of that gamemode in block order. */
  lemma {:induction false} NotificationGroupsAt(gamemodes: seq<Gamemode>, blocks: seq<ScheduleItem>, opts: Options, startString: ScheduleItem -> string)
    ensures var groups := NotificationGroups(gamemodes, blocks, opts, startString);
      var present := Filter(gamemodes, HasBlocks(blocks));
      && |groups| == |present|
      && forall k :: 0 <= k < |groups| ==>
        groups[k] == ModeGroup(present[k], Filter(blocks, InMode(present[k].id)), opts, startString)
  {
    if |gamemodes| > 0 {
      NotificationGroupsAt(gamemodes[..|gamemodes| - 1], blocks, opts, startString);
    }
  }

  /** With the gamemode included, a group starts with the gamemode's name and ": ". */
  lemma ModeGroupName(gamemode: Gamemode, current: seq<ScheduleItem>, opts: Options, startString: ScheduleItem -> string)
    requires opts.includeGamemode && |current| > 0
    ensures var group := ModeGroup(gamemode, current, opts, startString);
      var prefix := gamemode.name + ": ";
      |prefix| <= |group| && group[..|prefix|] == prefix
  {
    var texts := seq(|current|, i requires 0 <= i < |current| => BlockText(current[i], opts, startString));
    assert ([gamemode.name] + texts)[1..] == texts;
  }

  /** The parts of one block, appended one by one as the source does. */
  method BlockTextMethod(block: ScheduleItem, opts: Options, startString: ScheduleItem -> string) returns (text: string)
    ensures text == BlockText(block, opts, startString)
  {
    var parts: seq<string> := [];
    if opts.includeRuleset {
      parts := parts + [block.ruleset.0];
    }
    assert parts == (if opts.includeRuleset then [block.ruleset.0] else []);
    if opts.includeStage {
      parts := parts + ["on " + Join(block.stages, " and ")];
    }
    assert parts == (if opts.includeRuleset then [block.ruleset.0] else [])
      + (if opts.includeStage then ["on " + Join(block.stages, " and ")] else []);
    if opts.includeTime {
      parts := parts + ["at " + startString(block)];
    }
    assert parts == BlockParts(block, opts, startString);
    text := Join(parts, " ");
  }

  /** One gamemode's pass of the outer loop: its name, then each block's text. */
  method ModeGroupMethod(gamemode: Gamemode, current: seq<ScheduleItem>, opts: Options, startString: ScheduleItem -> string) returns (group: string)
    ensures group == ModeGroup(gamemode, current, opts, startString)
  {
    var modeResult: seq<string> := [];
    if opts.includeGamemode {
      modeResult := modeResult + [gamemode.name];
    }
    ghost var head := modeResult;
    var k := 0;
    while k < |current|
      invariant 0 <= k <= |current|
      invariant modeResult == head + seq(k, i requires 0 <= i < k => BlockText(current[i], opts, startString))
    {
      var text := BlockTextMethod(current[k], opts, startString);
      modeResult := modeResult + [text];
      k := k + 1;
    }
    group := Join(modeResult, ": ");
  }

  /** splatoon.stages_notification with the gamemode list and `start_string` given. */
  method StagesNotification(blocks: seq<ScheduleItem>, gamemodes: seq<Gamemode>, opts: Options, startString: ScheduleItem -> string)
    returns (r: Notification)
    ensures r == Notify(NotificationGroups(gamemodes, blocks, opts, startString), opts)
  {
    var result: seq<string> := [];
    var i := 0;
    while i < |gamemodes|
      invariant 0 <= i <= |gamemodes|
      invariant result == NotificationGroups(gamemodes[..i], blocks, opts, startString)
    {
      assert gamemodes[..i + 1][..i] == gamemodes[..i];
      var current := Filter(blocks, InMode(gamemodes[i].id));
      if |current| > 0 {
        var group := ModeGroupMethod(gamemodes[i], current, opts, startString);
        result := result + [group];
      }
      i := i + 1;
    }
    assert gamemodes[..i] == gamemodes;
    if opts.returnSentence {
      r := Sentence(Join(result, ". "));
    } else {
      r := Groups(result);
    }
  }
}
