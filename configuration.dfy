/** The configuration half of `Reset`: the three required keys of the
    `Airlock` section of the programmable block's Custom Data, the one door
    group per side, and the one vent. Parsing the text (MyIni) and searching
    the grid (`GetBlockGroups`, `GetBlocksOfType`) are the game's; they come
    in as `Ini` and `Grid`. */
module Configuration {
  import opened Wrappers
  import opened Actuators
  import opened Tasks

  const AIR_VENT_TAG_KEY: string := "AirVentTag"
  const EXTERIOR_DOORS_TAG_KEY: string := "ExteriorDoorsTag"
  const INTERIOR_DOORS_TAG_KEY: string := "InteriorDoorsTag"

  /** `Me.CustomData` as MyIni read it: a parse error, or the string values
      of the `Airlock` section by key. */
  datatype Ini = Unparsable(message: string) | Parsed(airlock: map<string, string>)

  /** The grid search: the hangar doors of each block group whose name
      contains a tag, and the air vents whose name contains a tag. */
  datatype Grid = Grid(groupsNamed: string -> seq<seq<DoorId>>, ventsNamed: string -> seq<VentId>)

  /** The exceptions `Reset` throws. */
  datatype ResetError =
    | IniParse(message: string)          // the text did not parse
    | MissingKey(key: string)            // a required key is absent
    | NotSingle                          // `SingleOrDefault` found several matches
    | NoExteriorGroup(tag: string)       // no group name contains the exterior tag
    | NoInteriorGroup(tag: string)       // no group name contains the interior tag
    | NoVent(tag: string)                // no vent name contains the vent tag

  /** The door lists and vent after `Reset`, and the exception it threw if
      any. An exception leaves whatever was already assigned. */
  datatype ResetResult = ResetResult(blocks: Blocks, error: Option<ResetError>)

  function Fail(b: Blocks, e: ResetError): ResetResult {
    ResetResult(b, Some(e))
  }

  function Reset(b: Blocks, ini: Ini, grid: Grid): ResetResult
  {
    match ini
    case Unparsable(message) => Fail(b, IniParse(message))
    case Parsed(values) =>
      if AIR_VENT_TAG_KEY !in values then Fail(b, MissingKey(AIR_VENT_TAG_KEY))
      else if EXTERIOR_DOORS_TAG_KEY !in values then Fail(b, MissingKey(EXTERIOR_DOORS_TAG_KEY))
      else if INTERIOR_DOORS_TAG_KEY !in values then Fail(b, MissingKey(INTERIOR_DOORS_TAG_KEY))
      else
        var ventTag, exteriorTag, interiorTag :=
          values[AIR_VENT_TAG_KEY], values[EXTERIOR_DOORS_TAG_KEY], values[INTERIOR_DOORS_TAG_KEY];
        var exterior := grid.groupsNamed(exteriorTag);
        if |exterior| > 1 then Fail(b, NotSingle)
        else if exterior == [] then Fail(b, NoExteriorGroup(exteriorTag))
        else
          var b1 := b.(exteriorDoors := exterior[0]);
          var interior := grid.groupsNamed(interiorTag);
          if |interior| > 1 then Fail(b1, NotSingle)
          else if interior == [] then Fail(b1, NoInteriorGroup(interiorTag))
          else
            var b2 := b1.(interiorDoors := interior[0], allDoors := b.allDoors + exterior[0] + interior[0]);
            var vents := grid.ventsNamed(ventTag);
            if |vents| > 1 then Fail(b2, NotSingle)
            else if vents == [] then Fail(b2.(airlockVent := None), NoVent(ventTag))
            else ResetResult(b2.(airlockVent := Some(vents[0])), None)
  }

  /** A configuration `Reset` accepts: it parses, has the three keys, and each
      tag matches exactly one group or vent. */
  predicate Accepted(ini: Ini, grid: Grid) {
    && ini.Parsed?
    && AIR_VENT_TAG_KEY in ini.airlock
    && EXTERIOR_DOORS_TAG_KEY in ini.airlock
    && INTERIOR_DOORS_TAG_KEY in ini.airlock
    && |grid.groupsNamed(ini.airlock[EXTERIOR_DOORS_TAG_KEY])| == 1
    && |grid.groupsNamed(ini.airlock[INTERIOR_DOORS_TAG_KEY])| == 1
    && |grid.ventsNamed(ini.airlock[AIR_VENT_TAG_KEY])| == 1
  }

  /** The keys are checked in the order AirVentTag, ExteriorDoorsTag,
      InteriorDoorsTag; the first one missing is reported, nothing is
      changed, and the grid is not consulted at all. */
  lemma KeysCheckedFirst(b: Blocks, values: map<string, string>, grid: Grid, other: Grid)
    requires AIR_VENT_TAG_KEY !in values || EXTERIOR_DOORS_TAG_KEY !in values || INTERIOR_DOORS_TAG_KEY !in values
    ensures var r := Reset(b, Parsed(values), grid);
      && r == Reset(b, Parsed(values), other)
      && r.blocks == b
      && r.error == Some(MissingKey(
           if AIR_VENT_TAG_KEY !in values then AIR_VENT_TAG_KEY
           else if EXTERIOR_DOORS_TAG_KEY !in values then EXTERIOR_DOORS_TAG_KEY
           else INTERIOR_DOORS_TAG_KEY))
  {
  }

  /** `Reset` succeeds exactly on an accepted configuration, and then the
      side lists are the two groups' doors, the vent is the one match, and
      `allDoors` is the OLD list with both groups appended, since it is never
      cleared. */
  lemma ResetOutcome(b: Blocks, ini: Ini, grid: Grid)
    ensures var r := Reset(b, ini, grid);
      && (r.error.None? <==> Accepted(ini, grid))
      && (r.error.None? ==>
            var exterior := grid.groupsNamed(ini.airlock[EXTERIOR_DOORS_TAG_KEY])[0];
            var interior := grid.groupsNamed(ini.airlock[INTERIOR_DOORS_TAG_KEY])[0];
            r.blocks == Blocks(exterior, interior, b.allDoors + exterior + interior,
                               Some(grid.ventsNamed(ini.airlock[AIR_VENT_TAG_KEY])[0])))
  {
  }

  /** A failed `Reset` is not atomic: a failure at the interior group leaves
      the new exterior list in place, and a vent lookup that finds no vent
      has already replaced all three lists and cleared the vent. */
  lemma ResetFailureIsPartial(b: Blocks, values: map<string, string>, grid: Grid)
    requires AIR_VENT_TAG_KEY in values && EXTERIOR_DOORS_TAG_KEY in values && INTERIOR_DOORS_TAG_KEY in values
    requires |grid.groupsNamed(values[EXTERIOR_DOORS_TAG_KEY])| == 1
    ensures var r := Reset(b, Parsed(values), grid);
      var exterior := grid.groupsNamed(values[EXTERIOR_DOORS_TAG_KEY])[0];
      var interior := grid.groupsNamed(values[INTERIOR_DOORS_TAG_KEY]);
      && r.blocks.exteriorDoors == exterior
      && (|interior| != 1 ==> r.blocks == b.(exteriorDoors := exterior) && r.error.Some?)
      && (|interior| == 1 && grid.ventsNamed(values[AIR_VENT_TAG_KEY]) == [] ==>
            r.blocks == Blocks(exterior, interior[0], b.allDoors + exterior + interior[0], None)
            && r.error == Some(NoVent(values[AIR_VENT_TAG_KEY])))
  {
  }

  /** Resetting twice on an unchanged grid gives the same side lists and vent
      both times, but `allDoors` holds both groups twice over. The repeat is
      harmless to the airlock cycle's scan, which sees the same doors. */
  lemma ResetTwice(b: Blocks, ini: Ini, grid: Grid, env: Env)
    requires Accepted(ini, grid)
    ensures var once := Reset(b, ini, grid).blocks;
      var twice := Reset(once, ini, grid).blocks;
      var added := once.allDoors[|b.allDoors|..];
      && twice.exteriorDoors == once.exteriorDoors
      && twice.interiorDoors == once.interiorDoors
      && twice.airlockVent == once.airlockVent
      && once.allDoors == b.allDoors + added
      && twice.allDoors == b.allDoors + added + added
      && (AllClosed(twice.allDoors, env) <==> AllClosed(once.allDoors, env))
  {
    ResetOutcome(b, ini, grid);
    var once := Reset(b, ini, grid).blocks;
    ResetOutcome(once, ini, grid);
    var added := once.allDoors[|b.allDoors|..];
    assert once.allDoors == b.allDoors + added;
    assert added == once.exteriorDoors + once.interiorDoors;
    AllClosedAppend(b.allDoors + added, added, env);
    AllClosedAppend(b.allDoors, added, env);
  }
}
