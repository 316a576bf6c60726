/**
 * The player-habits record and the handlers that update it. Each handler reads the record from
 * its JSON file, changes one field, writes the record back and answers with it; the file is the
 * `record` field of a `HabitFile` object, reading is taking its value and writing is assigning it.
 */
module HabitController {
  import opened Seqs

  /** The stored record: the step count and the lists of NPCs and areas met so far. */
  datatype Habits = Habits(steps: int, npcsInteracted: seq<string>, areasInteracted: seq<string>)

  /** `habits.steps += steps`; the lists stay as they are. */
  function WithSteps(h: Habits, steps: int): (r: Habits)
    ensures r.steps - h.steps == steps
    ensures r.npcsInteracted == h.npcsInteracted && r.areasInteracted == h.areasInteracted
  {
    h.(steps := h.steps + steps)
  }

  /** The NPC is listed afterwards: appended at the end when it was absent, otherwise nothing changes. */
  function WithNpc(h: Habits, npc: string): (r: Habits)
    ensures npc in r.npcsInteracted
    ensures npc in h.npcsInteracted ==> r == h
    ensures npc !in h.npcsInteracted ==> r.npcsInteracted == h.npcsInteracted + [npc]
    ensures r.steps == h.steps && r.areasInteracted == h.areasInteracted
  {
    h.(npcsInteracted := AddIfAbsent(h.npcsInteracted, npc))
  }

  /** The area is listed afterwards: appended at the end when it was absent, otherwise nothing changes. */
  function WithArea(h: Habits, area: string): (r: Habits)
    ensures area in r.areasInteracted
    ensures area in h.areasInteracted ==> r == h
    ensures area !in h.areasInteracted ==> r.areasInteracted == h.areasInteracted + [area]
    ensures r.steps == h.steps && r.npcsInteracted == h.npcsInteracted
  {
    h.(areasInteracted := AddIfAbsent(h.areasInteracted, area))
  }

  /** Meeting an NPC twice records the same as meeting it once; likewise for areas. */
  lemma InteractIdempotent(h: Habits, npc: string, area: string)
    ensures WithNpc(WithNpc(h, npc), npc) == WithNpc(h, npc)
    ensures WithArea(WithArea(h, area), area) == WithArea(h, area)
  {
    AddIfAbsentIdempotent(h.npcsInteracted, npc);
    AddIfAbsentIdempotent(h.areasInteracted, area);
  }

  /** Lists without duplicates keep none. */
  lemma InteractKeepsNoDup(h: Habits, npc: string, area: string)
    requires NoDup(h.npcsInteracted) && NoDup(h.areasInteracted)
    ensures NoDup(WithNpc(h, npc).npcsInteracted) && NoDup(WithArea(h, area).areasInteracted)
  {
    AddIfAbsentKeepsNoDup(h.npcsInteracted, npc);
    AddIfAbsentKeepsNoDup(h.areasInteracted, area);
  }

  /** Step additions accumulate: two calls add the sum of their amounts. */
  lemma StepsAccumulate(h: Habits, a: int, b: int)
    ensures WithSteps(WithSteps(h, a), b) == WithSteps(h, a + b)
  {
  }

  /** Meeting NPCs and visiting areas do not interfere, in either order. */
  lemma InteractionsCommute(h: Habits, npc: string, area: string)
    ensures WithArea(WithNpc(h, npc), area) == WithNpc(WithArea(h, area), npc)
  {
  }

  /** The JSON file that holds the record. */
  class HabitFile {
    var record: Habits

    constructor (initial: Habits)
      ensures record == initial
    {
      record := initial;
    }

    /** `getHabits`: the stored record. */
    method GetHabits() returns (h: Habits)
      ensures h == record
    {
      h := record;
    }

    /** `addSteps`: adds the amount, stores the record and answers with it. */
    method AddSteps(steps: int) returns (h: Habits)
      modifies this
      ensures record == WithSteps(old(record), steps) && h == record
    {
      var habits := record;
      habits := habits.(steps := habits.steps + steps);
      record := habits;
      h := habits;
    }

    /** `interactNPC`: lists the NPC if it is not listed yet, stores the record and answers with it. */
    method InteractNpc(npc: string) returns (h: Habits)
      modifies this
      ensures record == WithNpc(old(record), npc) && h == record
      ensures NoDup(old(record).npcsInteracted) ==> NoDup(record.npcsInteracted)
    {
      var habits := record;
      if npc !in habits.npcsInteracted {
        habits := habits.(npcsInteracted := habits.npcsInteracted + [npc]);
      }
      if NoDup(old(record).npcsInteracted) {
        AddIfAbsentKeepsNoDup(old(record).npcsInteracted, npc);
      }
      record := habits;
      h := habits;
    }

    /** `interactArea`: lists the area if it is not listed yet, stores the record and answers with it. */
    method InteractArea(area: string) returns (h: Habits)
      modifies this
      ensures record == WithArea(old(record), area) && h == record
      ensures NoDup(old(record).areasInteracted) ==> NoDup(record.areasInteracted)
    {
      var habits := record;
      if area !in habits.areasInteracted {
        habits := habits.(areasInteracted := habits.areasInteracted + [area]);
      }
      if NoDup(old(record).areasInteracted) {
        AddIfAbsentKeepsNoDup(old(record).areasInteracted, area);
      }
      record := habits;
      h := habits;
    }
  }
}
