/** The compiler: parse, make the main word, optimize. */
module Compilers {
  import opened Machine
  import opened Simulation
  import opened Shape
  import opened Statements
  import opened Compilation
  import opened Elements
  import opened ParserStates
  import opened Tokens
  import opened CleanSources
  import opened Conditions
  import opened Reading
  import opened Grammar
  import opened ConditionalSources
  import opened Parsing
  import opened Programs
  import opened Optimizer
  import opened NormalForms
  import opened BranchesKept
  import OpcodeTables
  import opened Erasure
  import Definitions
  import SmallWords

  /** The calls that a file makes of the parser: conditionals are matched, and what
      is left of them when inactive branches are deleted are the calls for what is
      left of source s.  Conditionals may stand anywhere, also around parts of other
      structures. */
  predicate Spells(definitions: set<string>, tokens: seq<Token>, s: Source) {
    && Matched(tokens) && WellMade(tokens) && Lawful(s)
    && Active(definitions, tokens) == SourceTokens(ErasedSource(definitions, s))
  }

  /** The calls for a source spell it, conditionals and all. */
  lemma SourceSpells(definitions: set<string>, s: Source)
    requires Lawful(s)
    ensures Spells(definitions, SourceTokens(s), s)
  {
    SourceActive(definitions, s);
    SourceMade(s);
  }

  /** Compile a file.  Without complaints, every word of the table that comes out,
      called in any state, ends exactly as the statements of the source do. */
  method Compile(definitions: set<string>, tokens: seq<Token>, ghost s: Source, optimize: bool)
    returns (errors: nat, opcodes: Table, isOptimizing: bool)
    requires Spells(definitions, tokens, s)
    ensures Drive(true, Initial(definitions), tokens).Some?
    ensures var v := Drive(true, Initial(definitions), tokens).value; errors == Complaints(v.notes.errors, v)
    ensures errors == 0 <==> Clear(SourceEvents(definitions, s))
    ensures errors == 0 ==> WellFormed(opcodes) && BranchesStay(opcodes)
    ensures errors == 0 && !optimize ==> opcodes == Join(AllBlocks(definitions, s))
    ensures errors == 0 && optimize ==>
      exists n :: 1 <= n <= 32 && opcodes == Rounds(Join(AllBlocks(definitions, s)), n) && (isOptimizing ==> n == 32)
    ensures errors == 0 && optimize && !isOptimizing ==> NormalForm(opcodes)
    ensures !optimize ==> !isOptimizing
    ensures errors == 0 ==> forall env, x, st, r :: Faithful(definitions, s, opcodes, env, x, st, r)
  {
    hide Lawful, Sound, Distinct, WellFormed, BranchesStay, NormalForm, Raw, Join, WithMain, AllBlocks, Rounds,
      Faithful, Equivalent, SmallWords.LibraryBooleans, Drive, Finished, Active, Matched, Clear, SourceEvents;
    ActiveFinishes(definitions, tokens, s);
    FinishedChecks(Drive(true, Initial(definitions), tokens).value);
    var parser := new Parser(definitions);
    parser.Parse(tokens);
    errors, isOptimizing := parser.errorCount, false;
    opcodes := parser.table;
    if errors == 0 {
      var table := new OpcodeTables.OpcodeTable(opcodes);
      table.SynthesizeMain();
      Definitions.WithMainIsJoin(definitions, s);
      FinishedWellFormed(definitions, s);
      ghost var rounds := 0;
      NoRounds(table.opcodes);
      if optimize {
        var limitReached;
        limitReached, isOptimizing := table.OptimizeCode();
        rounds :| 1 <= rounds <= 32 && table.opcodes == Rounds(WithMain(Raw(definitions, s, 1)), rounds)
          && (limitReached <==> rounds == 32);
      }
      opcodes := table.opcodes;
      RoundsStay(WithMain(Raw(definitions, s, 1)), rounds);
      forall env, x, st, r ensures Faithful(definitions, s, opcodes, env, x, st, r) {
        FaithfulRounds(definitions, s, env, rounds, x, st, r);
      }
    }
  }

  lemma NoRounds(t: Table)
    ensures Rounds(t, 0) == t
  {
  }

  /** In a world where words outside do not look at registers and the words for
      true and false are the library's, word x ends with result r in the table
      exactly when its statements do. */
  ghost predicate Faithful(definitions: set<string>, s: Source, t: Table, env: Env, x: Symbol, st: State, r: Result) {
    RegisterBlind(env) && SmallWords.LibraryBooleans(WithMain(Raw(definitions, s, 1)), env) && !r.OutOfFuel? ==>
      (CanEnd(ProgramOf(definitions, s), env, x, st.core, r) <==> Shows(t, env, x, st, r))
  }

  lemma FaithfulRounds(definitions: set<string>, s: Source, env: Env, rounds: nat, x: Symbol, st: State, r: Result)
    requires Lawful(s) && Sound(definitions, s) && Distinct(BlockNames(AllBlocks(definitions, s)))
    ensures Faithful(definitions, s, Rounds(WithMain(Raw(definitions, s, 1)), rounds), env, x, st, r)
  {
    hide Lawful, Sound, Distinct, Raw, WithMain, AllBlocks, Rounds, CanEnd, Shows, RegisterBlind,
      SmallWords.LibraryBooleans;
    if RegisterBlind(env) && SmallWords.LibraryBooleans(WithMain(Raw(definitions, s, 1)), env) && !r.OutOfFuel? {
      SourceToOptimized(definitions, s, env, rounds, x, st, r);
    }
  }
}
