/** Where a compilation goes wrong without an error: exactly which texts make the front end
    loop for ever, use a node that it did not make, or write past its stack of names. */
module Hazards {
  import opened Options
  import opened Tokens
  import opened Syntax
  import opened Reading
  import opened Canonical
  import opened Closing
  import opened Mending
  import opened Supported
  import opened Layout
  import opened Scopes
  import opened Limits
  import opened Stopping
  import opened Registry
  import opened Archetypes
  import opened Compiling
  import Scanning

  /** The stream, mended, spells a program that the arena has room for and whose names
      overflow the resolver's stack. */
  ghost predicate NamesOverflow(s: seq<Item>, room: nat) {
    exists b :: && CanonBlock(b) && ClosedBlock(b) && Mend(s) == BlockTokens(b) && BlockNodes(b) <= room
                && Overflows(LayModule(b), 1024)
  }

  lemma {:induction false} ReadOverflows(s: seq<Item>, room: nat)
    requires Proper(s)
    ensures (ReadModule(s, room).Ok? && Overflows(LayModule(ReadModule(s, room).value), 1024))
       <==> NamesOverflow(s, room)
  {
    hide Mend, WellClosed, ReadModule, ReadBlock, CanonBlock, ClosedBlock, BlockTokens, BlockNodes, Proper, LayModule,
      Overflows;
    MendCloses(s);
    MendProper(s);
    if ReadModule(s, room).Ok? {
      MendedArena(s, room);
      MendedSpells(Mend(s), room);
    }
    if NamesOverflow(s, room) {
      var b :| && CanonBlock(b) && ClosedBlock(b) && Mend(s) == BlockTokens(b) && BlockNodes(b) <= room
               && Overflows(LayModule(b), 1024);
      ModuleReads(b, room);
      AcceptedIff(s, room);
      MendedArena(s, room);
    }
  }

  /** A compilation goes wrong in this way if and only if its text begins with an import,
      or comes to a statement that the parser does not implement, or spells a program
      whose names overflow the stack. */
  lemma {:induction false} CompileUndefinedIff(source: string, capacity: nat, reg: seq<Archetype>)
    requires 0 < capacity
    ensures var s := Scanning.Items(source, 0);
            (Compile(source, capacity, reg) == Refused(UNDEFINED)
             <==> || Head(s) == Tok(IMPORT) || Head(s) == Tok(FROM)
                  || ComesToUnsupported(Mend(s), capacity - 1)
                  || NamesOverflow(s, capacity - 1))
  {
    hide Mend, ReadModule, ResolveModule, LayModule, Overflows, NamesOverflow, ComesToUnsupported, Scanning.Items,
      Proper, Known, Picks;
    var s := Scanning.Items(source, 0);
    SourceUndefinedIff(source, capacity - 1);
    ReadOverflows(s, capacity - 1);
    var r := ReadModule(s, capacity - 1);
    if r.Ok? { ModuleOverflowIff(LayModule(r.value), 1024); }
  }

  /** In an arena with no more nodes than the stack has places, as the default one of 256
      nodes, names never overflow the stack. */
  lemma {:induction false} SmallArena(s: seq<Item>, room: nat)
    requires room < 1024
    ensures !NamesOverflow(s, room)
  {
    hide CanonBlock, ClosedBlock, BlockTokens, BlockNodes, LayModule, Overflows, ResolveModule, Resolve;
    forall b | BlockNodes(b) <= room ensures !Overflows(LayModule(b), 1024) {
      var t := LayModule(b);
      ModuleFits(b, 1024);
      ModuleOverflowIff(t, 1024);
      NeverUndefined(t);
    }
  }

  lemma {:induction false} NeverUndefined(t: Tree)
    ensures ResolveModule(t, None) != Stuck(UNDEFINED)
  {
    hide Resolve, Distinct;
    DeclareIff(t.kids, None);
    FullOrSame(t, FunctionBindings(t.kids), 0);
  }
}
