/**
 * The generation context `assemble` builds: six sections (persona, game state, recent memory,
 * gossip, the player's words, the output-format instruction) joined in that order.
 *
 * The source writes its separators as `'\\n'` inside JavaScript string literals, so they are the
 * two characters backslash and `n`, not line feeds: `ItemSep` is two characters and `SectionSep`
 * four.
 */
module PromptAssembler {
  import opened Wrappers
  import opened Text

  /** Between memory or gossip lines: backslash, `n`. */
  const ItemSep: string := "\\n"

  /** Between sections: backslash, `n`, backslash, `n`. */
  const SectionSep: string := "\\n\\n"

  const NoMemories: string := "No recent memories."
  const NoGossip: string := "No gossip nearby."
  const JsonInstruction: string :=
    "Output a JSON object only " + "with keys: dialogue (string), " + "action (object|null), " + "metadata (object)."

  /** The NPC fields the persona line reads. */
  datatype Npc = Npc(name: string, role: string, personality: string, goals: seq<string>)

  /** The game-state fields the second section reads. */
  datatype GameState = GameState(time: string, weather: string, location: string)

  /** A memory or gossip entry; only its `text` is read, and a missing one joins as `''`. */
  datatype Entry = Entry(text: Option<string>)

  /** `entries.map(m => m.text)` as `join` sees it. */
  function Texts(entries: seq<Entry>): (r: seq<string>)
    ensures |r| == |entries|
    ensures forall i | 0 <= i < |entries| :: r[i] == entries[i].text.GetOr("")
  {
    seq(|entries|, i requires 0 <= i < |entries| => entries[i].text.GetOr(""))
  }

  /**
   * `(entries || []).map(m => m.text).join('\\n') || fallback`: the texts, one per line, or the
   * fallback when the join is empty, which happens exactly for no entries or a single empty one.
   */
  function ItemsText(entries: Option<seq<Entry>>, fallback: string): (r: string)
    ensures var ts := Texts(entries.GetOr([]));
      && ((ts == [] || ts == [""]) ==> r == fallback)
      && (!(ts == [] || ts == [""]) ==> r == Join(ts, ItemSep))
  {
    var ts := Texts(entries.GetOr([]));
    JoinEmpty(ts, ItemSep);
    var joined := Join(ts, ItemSep);
    if joined == "" then fallback else joined
  }

  function PersonaLine(npc: Npc): string {
    "You are " + npc.name + ", " + npc.role + ". Personality: " + npc.personality + ". Goals: " + Join(npc.goals, ", ") + "."
  }

  function GameStateLine(state: GameState): string {
    "Game state: time=" + state.time + ", weather=" + state.weather + ", location=" + state.location + "."
  }

  function MemorySection(recentMem: Option<seq<Entry>>): string {
    "Recent memory:" + ItemSep + ItemsText(recentMem, NoMemories)
  }

  function GossipSection(gossip: Option<seq<Entry>>): string {
    "Gossip:" + ItemSep + ItemsText(gossip, NoGossip)
  }

  function PlayerSection(playerText: string): string {
    "Player says: " + playerText
  }

  /** The six sections, in order. */
  function Sections(npc: Npc, state: GameState, recentMem: Option<seq<Entry>>, gossip: Option<seq<Entry>>, playerText: string): seq<string> {
    [PersonaLine(npc), GameStateLine(state), MemorySection(recentMem), GossipSection(gossip), PlayerSection(playerText), JsonInstruction]
  }

  /**
   * `assemble(npc, gameState, recentMem, gossip, playerText)`: the six sections in fixed order,
   * separated by backslash-n backslash-n; the player's words go in verbatim.
   */
  function Assemble(npc: Npc, state: GameState, recentMem: Option<seq<Entry>>, gossip: Option<seq<Entry>>, playerText: string): (r: string)
    ensures r == PersonaLine(npc) + SectionSep + GameStateLine(state) + SectionSep + MemorySection(recentMem)
      + SectionSep + GossipSection(gossip) + SectionSep + PlayerSection(playerText) + SectionSep + JsonInstruction
  {
    var ss := Sections(npc, state, recentMem, gossip, playerText);
    JoinSix(ss, SectionSep);
    Join(ss, SectionSep)
  }

  /** A join of six parts, written out. */
  lemma JoinSix(ss: seq<string>, sep: string)
    requires |ss| == 6
    ensures Join(ss, sep) == ss[0] + sep + ss[1] + sep + ss[2] + sep + ss[3] + sep + ss[4] + sep + ss[5]
  {
    assert Join(ss[5..], sep) == ss[5];
    assert Join(ss[4..], sep) == ss[4] + sep + ss[5];
    assert Join(ss[3..], sep) == ss[3] + sep + (ss[4] + sep + ss[5]);
    assert Join(ss[2..], sep) == ss[2] + sep + (ss[3] + sep + (ss[4] + sep + ss[5]));
    assert Join(ss[1..], sep) == ss[1] + sep + (ss[2] + sep + (ss[3] + sep + (ss[4] + sep + ss[5])));
    Flatten(ss[0], ss[1], ss[2], ss[3], ss[4], ss[5], sep);
  }

  lemma Flatten(a: string, b: string, c: string, d: string, e: string, f: string, sep: string)
    ensures a + sep + (b + sep + (c + sep + (d + sep + (e + sep + f)))) == a + sep + b + sep + c + sep + d + sep + e + sep + f
  {
  }

  /** Six parts joined, grouped as the first part, the middle and the last two. */
  lemma Regroup(a: string, b: string, c: string, d: string, e: string, f: string, sep: string)
    ensures a + sep + b + sep + c + sep + d + sep + e + sep + f == (a + sep) + (b + sep + c + sep + d + sep) + (e + sep + f)
  {
  }

  /** No entry's text holds the character `c`. */
  predicate EntriesAvoid(entries: Option<seq<Entry>>, c: char) {
    forall i | 0 <= i < |entries.GetOr([])| :: c !in entries.GetOr([])[i].text.GetOr("")
  }

  /** The memory and gossip lines hold a character only if some entry or the fallback does. */
  lemma ItemsTextAvoids(entries: Option<seq<Entry>>, fallback: string, c: char)
    requires EntriesAvoid(entries, c) && c !in fallback && c !in ItemSep
    ensures c !in ItemsText(entries, fallback)
  {
    JoinAvoids(Texts(entries.GetOr([])), ItemSep, c);
  }

  lemma PersonaLineAvoids(npc: Npc)
    requires '\n' !in npc.name && '\n' !in npc.role && '\n' !in npc.personality
    requires forall i | 0 <= i < |npc.goals| :: '\n' !in npc.goals[i]
    ensures '\n' !in PersonaLine(npc)
  {
    JoinAvoids(npc.goals, ", ", '\n');
  }

  lemma EntrySectionsAvoid(recentMem: Option<seq<Entry>>, gossip: Option<seq<Entry>>)
    requires EntriesAvoid(recentMem, '\n') && EntriesAvoid(gossip, '\n')
    ensures '\n' !in MemorySection(recentMem) && '\n' !in GossipSection(gossip)
  {
    ItemsTextAvoids(recentMem, NoMemories, '\n');
    ItemsTextAvoids(gossip, NoGossip, '\n');
  }

  /**
   * The separators are backslash-n, not line feeds: when none of the inputs holds a line feed,
   * neither does the assembled context.
   */
  lemma AssembleHasNoLineFeed(npc: Npc, state: GameState, recentMem: Option<seq<Entry>>, gossip: Option<seq<Entry>>, playerText: string)
    requires '\n' !in npc.name && '\n' !in npc.role && '\n' !in npc.personality
    requires forall i | 0 <= i < |npc.goals| :: '\n' !in npc.goals[i]
    requires '\n' !in state.time && '\n' !in state.weather && '\n' !in state.location
    requires EntriesAvoid(recentMem, '\n') && EntriesAvoid(gossip, '\n') && '\n' !in playerText
    ensures '\n' !in Assemble(npc, state, recentMem, gossip, playerText)
  {
    var ss := Sections(npc, state, recentMem, gossip, playerText);
    PersonaLineAvoids(npc);
    EntrySectionsAvoid(recentMem, gossip);
    assert '\n' !in GameStateLine(state);
    assert '\n' !in PlayerSection(playerText);
    JsonInstructionAvoids();
    JoinAvoids(ss, SectionSep, '\n');
  }

  /** The format instruction is one line. */
  lemma JsonInstructionAvoids()
    ensures '\n' !in JsonInstruction
  {
    var c, d := "action (object|null), ", "metadata (object).";
    JsonKeysAvoid();
    assert '\n' !in c;
    assert '\n' !in d;
    assert JsonInstruction == "Output a JSON object only " + "with keys: dialogue (string), " + c + d;
  }

  lemma JsonKeysAvoid()
    ensures '\n' !in "Output a JSON object only " + "with keys: dialogue (string), "
  {
    var a, b := "Output a JSON object only ", "with keys: dialogue (string), ";
    assert '\n' !in a;
    assert '\n' !in b;
  }

  /** The context opens with the persona line and closes with the player's words and the format instruction. */
  lemma AssembleEnds(npc: Npc, state: GameState, recentMem: Option<seq<Entry>>, gossip: Option<seq<Entry>>, playerText: string)
    ensures StartsWith(Assemble(npc, state, recentMem, gossip, playerText), PersonaLine(npc) + SectionSep)
    ensures EndsWith(Assemble(npc, state, recentMem, gossip, playerText), PlayerSection(playerText) + SectionSep + JsonInstruction)
  {
    var x := PersonaLine(npc) + SectionSep;
    var y := GameStateLine(state) + SectionSep + MemorySection(recentMem) + SectionSep + GossipSection(gossip) + SectionSep;
    var z := PlayerSection(playerText) + SectionSep + JsonInstruction;
    Regroup(PersonaLine(npc), GameStateLine(state), MemorySection(recentMem), GossipSection(gossip), PlayerSection(playerText), JsonInstruction, SectionSep);
    ConcatEnds(x, y + z);
    ConcatEnds(x + y, z);
  }

  /** Every entry's text occurs in its section. */
  lemma EntryTextsInSection(entries: Option<seq<Entry>>, fallback: string, heading: string, i: nat)
    requires i < |Texts(entries.GetOr([]))|
    ensures Contains(heading + ItemSep + ItemsText(entries, fallback), Texts(entries.GetOr([]))[i])
  {
    var ts := Texts(entries.GetOr([]));
    var section := heading + ItemSep + ItemsText(entries, fallback);
    if ts == [""] {
      assert StartsAt(section, "", 0);
    } else {
      JoinContains(ts, ItemSep, i);
      ContainsWithin(section, heading + ItemSep, ItemsText(entries, fallback), "", ts[i]);
    }
  }

  /** Six parts joined, grouped around the third and around the fourth. */
  lemma RegroupMiddle(a: string, b: string, c: string, d: string, e: string, f: string, sep: string)
    ensures a + sep + b + sep + c + sep + d + sep + e + sep + f == (a + sep + b + sep) + c + (sep + d + sep + e + sep + f)
    ensures a + sep + b + sep + c + sep + d + sep + e + sep + f == (a + sep + b + sep + c + sep) + d + (sep + e + sep + f)
  {
  }

  /** Every memory line and every gossip line appears in the context, verbatim. */
  lemma AssembleKeepsEntries(npc: Npc, state: GameState, recentMem: Option<seq<Entry>>, gossip: Option<seq<Entry>>, playerText: string)
    ensures forall i | 0 <= i < |Texts(recentMem.GetOr([]))| ::
      Contains(Assemble(npc, state, recentMem, gossip, playerText), Texts(recentMem.GetOr([]))[i])
    ensures forall i | 0 <= i < |Texts(gossip.GetOr([]))| ::
      Contains(Assemble(npc, state, recentMem, gossip, playerText), Texts(gossip.GetOr([]))[i])
  {
    var a, b, c, d, e, f := PersonaLine(npc), GameStateLine(state), MemorySection(recentMem), GossipSection(gossip), PlayerSection(playerText), JsonInstruction;
    var r := Assemble(npc, state, recentMem, gossip, playerText);
    RegroupMiddle(a, b, c, d, e, f, SectionSep);
    forall i | 0 <= i < |Texts(recentMem.GetOr([]))|
      ensures Contains(r, Texts(recentMem.GetOr([]))[i])
    {
      EntryTextsInSection(recentMem, NoMemories, "Recent memory:", i);
      ContainsWithin(r, a + SectionSep + b + SectionSep, c, SectionSep + d + SectionSep + e + SectionSep + f, Texts(recentMem.GetOr([]))[i]);
    }
    forall i | 0 <= i < |Texts(gossip.GetOr([]))|
      ensures Contains(r, Texts(gossip.GetOr([]))[i])
    {
      EntryTextsInSection(gossip, NoGossip, "Gossip:", i);
      ContainsWithin(r, a + SectionSep + b + SectionSep + c + SectionSep, d, SectionSep + e + SectionSep + f, Texts(gossip.GetOr([]))[i]);
    }
  }

  /** The memory section falls back exactly when there is no memory text to join. */
  lemma MemoryFallback(recentMem: Option<seq<Entry>>)
    ensures ItemsText(recentMem, NoMemories) == NoMemories <==>
      (recentMem.None? || recentMem.value == [] || (|recentMem.value| == 1 && recentMem.value[0].text.GetOr("") == "")
       || Join(Texts(recentMem.value), ItemSep) == NoMemories)
  {
    if recentMem.Some? && |recentMem.value| == 1 {
      assert Texts(recentMem.value) == [recentMem.value[0].text.GetOr("")];
    }
  }
}
