/** Programs as text, all the way: printed, lexed, parsed, laid out in the arena and
    resolved. */
module Programs {
  import opened Tokens
  import opened Syntax
  import opened Reading
  import opened Layout
  import opened Scopes
  import opened Limits
  import opened Stripping
  import opened Mending
  import opened Sentences
  import opened Ungrouping
  import opened Resolving
  import opened Printing
  import opened Registry
  import opened Archetypes
  import opened Compiling
  import Texts
  import Scanning

  /** From program to arena: printing any program with minimal parentheses, spelling
      its tokens as text and compiling that text in a large enough arena gives the
      layout of exactly that program, with the references its scopes and the archetypes
      the registry determine, or the resolvers' errors. */
  lemma {:induction false} CompilesBack(b: seq<Stmt>, ts: seq<Token>, capacity: nat, reg: seq<Archetype>)
    requires PlainBlock(b) && BlockNodes(b) < capacity
    requires BlockTokens(DressBlock(b)) == Texts.Plain(ts)
    requires Texts.AllSpellable(ts) && Texts.AndsFit(ts)
    ensures match (Compile(Texts.Text(ts), capacity, reg), ResolveModule(LayModule(b), STACK))
            case (Program(c, refs, found), Done(r, _)) =>
              && LayModule(c) == LayModule(b) && StripBlock(c) == b
              && refs == r && Known(LayModule(b), reg) && found == Picks(LayModule(b), reg)
            case (Refused(e), Done(_, _)) => e == ARCHETYPE_NOT_FOUND && !Known(LayModule(b), reg)
            case (Refused(e), Stuck(e1)) => e == e1
            case _ => false
  {
    hide Known, Picks, PlainBlock, BlockNodes, BlockTokens, DressBlock, StripBlock, ReadModule, ResolveModule,
      LayModule, Texts.Plain, Texts.Text, Texts.AllSpellable, Texts.AndsFit, Scanning.Items;
    Texts.TextRoundTrip(ts);
    RoundTrip(b, capacity - 1);
    LayoutStrips(ReadModule(BlockTokens(DressBlock(b)), capacity - 1).value);
  }

  /** A reference says the same wherever it points. */
  lemma {:induction false} FillSays(t: Tree, refs: map<nat, nat>)
    ensures Sentence(Fill(t, refs)) == Sentence(t)
    decreases t
  {
    hide Sentence, Concat, Commas, Branches, Part, OptTypeWords, TypeWords;
    var u := Fill(t, refs);
    SentenceIs(t);
    SentenceIs(u);
    forall k | 0 <= k < |t.kids| ensures Sentence(u.kids[k]) == Sentence(t.kids[k]) { FillSays(t.kids[k], refs); }
    assert Parts(u.kids) == Parts(t.kids);
  }

  /** From arena to text: what the nodes say after a compilation are the tokens of the
      text, with its missing parentheses and without those that only group. */
  lemma {:induction false} CompiledSays(source: string, capacity: nat, reg: seq<Archetype>)
    requires 0 < capacity && Compile(source, capacity, reg).Program?
    ensures var c := Compile(source, capacity, reg);
            Sentence(Fill(LayModule(c.block), c.refs)) == Ungroup(Mend(Scanning.Items(source, 0)), false, [])
  {
    hide Sentence, Fill, LayModule, ReadModule, ResolveModule, Ungroup, Mend, Known, Picks, Proper, Scanning.Items;
    var c := Compile(source, capacity, reg);
    AcceptedSays(Scanning.Items(source, 0), capacity - 1);
    FillSays(LayModule(c.block), c.refs);
  }
}
