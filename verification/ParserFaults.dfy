/** The null list in declarations: which inputs make the parser go through a list that is not there.

    Where names should stand and something else stands, the list of names is null. The parser reports this,
    skips, and goes on as if nothing had happened when it stops at a colon that a type follows; then it goes
    through the null list. Everything about one group of names is said about the tokens alone. */
module ParserFaults {
  import opened Ast
  import opened Tokens
  import opened Parsing
  import opened Grammar
  import opened ParserComplete

  // ----- one group of names, as the parser reads it -----

  /** Where the parser stops reading names from `i` on, after skipping if need be. */
  function NamesEnd(ts: seq<Token>, i: nat): (j: nat)
    ensures i <= j
    decreases if i < |ts| then |ts| - i else 0
  {
    if !Is(ts, i, TIdentifier) then Skip(ts, i, IDENTIFIER_LIST_FOLLOW)
    else if Is(ts, i + 1, TComma) then NamesEnd(ts, i + 2)
    else i + 1
  }

  predicate StartsType(k: Kind) {
    k.TArray? || k.TInteger? || k.TReal?
  }

  /** Where the parser stops reading an array type, after `array`. */
  function ArrayEnd(ts: seq<Token>, i: nat): (j: nat)
    ensures i <= j
  {
    if !Is(ts, i, TLBracket) then Skip(ts, i, TYPE_FOLLOW)
    else if !Is(ts, i + 1, TNumber) then Skip(ts, i + 1, TYPE_FOLLOW)
    else if !Is(ts, i + 2, TRange) then Skip(ts, i + 2, TYPE_FOLLOW)
    else if !Is(ts, i + 3, TNumber) then Skip(ts, i + 3, TYPE_FOLLOW)
    else if !Is(ts, i + 4, TRBracket) then Skip(ts, i + 4, TYPE_FOLLOW)
    else if !Is(ts, i + 5, TOf) then Skip(ts, i + 5, TYPE_FOLLOW)
    else if !Is(ts, i + 6, TInteger) && !Is(ts, i + 6, TReal) then Skip(ts, i + 6, TYPE_FOLLOW)
    else i + 7
  }

  function TypeEnd(ts: seq<Token>, i: nat): (j: nat)
    ensures i < j
  {
    if Is(ts, i, TArray) then ArrayEnd(ts, i + 1) else i + 1
  }

  /** After the names from `i` on stands a colon, and then something a type begins with. */
  predicate GroupRead(ts: seq<Token>, i: nat) {
    Is(ts, NamesEnd(ts, i), TColon) && StartsType(Cur(ts, NamesEnd(ts, i) + 1).kind)
  }

  function GroupEnd(ts: seq<Token>, i: nat): (j: nat)
    ensures i < j
  {
    TypeEnd(ts, NamesEnd(ts, i) + 1)
  }

  /** No name stands at `i`, where the arguments of one type should begin, but the first colon, semicolon or
      closing parenthesis from there on is a colon, and `array`, `integer` or `real` follows it. */
  predicate NullArguments(ts: seq<Token>, i: nat) {
    !Is(ts, i, TIdentifier) && GroupRead(ts, i)
  }

  /** The same for variables, which must also end with a semicolon. */
  predicate NullVariables(ts: seq<Token>, i: nat) {
    NullArguments(ts, i) && Is(ts, GroupEnd(ts, i), TSemicolon)
  }

  lemma {:induction false} NamesStep(ts: seq<Token>, s: State)
    requires !Raised(s)
    ensures var (r, ids) := ParseIdentifierList(ts, s);
      !Raised(r) && r.pos == NamesEnd(ts, s.pos) && (ids.Identifiers? <==> Is(ts, s.pos, TIdentifier))
    decreases Left(ts, s)
  {
    hide Skip, Moves, Consistent;
    if Is(ts, s.pos, TIdentifier) && Is(ts, s.pos + 1, TComma) {
      NamesStep(ts, s.(pos := s.pos + 2));
    }
  }

  lemma TypeStep(ts: seq<Token>, s: State)
    requires !Raised(s)
    ensures var r := ParseType(ts, s).0;
      if StartsType(Cur(ts, s.pos).kind) then !Raised(r) && r.pos == TypeEnd(ts, s.pos) else Raised(r) && r.pos == s.pos
  {
    hide Skip, Moves, Consistent, ArrayEnd;
    if Is(ts, s.pos, TArray) {
      ArrayStep(ts, s);
    }
  }

  lemma ArrayStep(ts: seq<Token>, s: State)
    requires !Raised(s) && Is(ts, s.pos, TArray)
    ensures !Raised(ParseType(ts, s).0) && ParseType(ts, s).0.pos == ArrayEnd(ts, s.pos + 1)
  {
    hide Skip, Moves, Consistent, Is, Cur, ParseElement, TypeEnd;
    var s1 := s.(pos := s.pos + 5);
    ElementStep(ts, s1, ParseNumber(ts, s.(pos := s.pos + 2)).1, ParseNumber(ts, s.(pos := s.pos + 4)).1);
  }

  lemma ElementStep(ts: seq<Token>, s: State, from: Number, to: Number)
    requires !Raised(s)
    ensures var (r, i) := (ParseElement(ts, s, from, to).0, s.pos);
      !Raised(r) && r.pos ==
        if !Is(ts, i, TRBracket) then Skip(ts, i, TYPE_FOLLOW)
        else if !Is(ts, i + 1, TOf) then Skip(ts, i + 1, TYPE_FOLLOW)
        else if !Is(ts, i + 2, TInteger) && !Is(ts, i + 2, TReal) then Skip(ts, i + 2, TYPE_FOLLOW)
        else i + 3
  {
    hide Skip, Moves, Consistent, Is, Cur;
  }

  // ----- the lists of one declaration part and of one argument list -----

  /** Where the lists of names begin that the parser reads in an argument list. */
  function ArgumentLists(ts: seq<Token>, i: nat): seq<nat>
    decreases if i < |ts| then |ts| - i else 0
  {
    [i] + if GroupRead(ts, i) && Is(ts, GroupEnd(ts, i), TSemicolon) then ArgumentLists(ts, GroupEnd(ts, i) + 1) else []
  }

  /** Where the lists of names begin that the parser reads in a declaration part. */
  function VariableLists(ts: seq<Token>, i: nat): seq<nat>
    decreases if i < |ts| then |ts| - i else 0
  {
    if !Is(ts, i, TVar) then []
    else [i + 1] + if GroupRead(ts, i + 1) && Is(ts, GroupEnd(ts, i + 1), TSemicolon)
                   then VariableLists(ts, GroupEnd(ts, i + 1) + 1) else []
  }

  /** Where the parser stops reading a declaration part, after skipping if need be. */
  function VariablesEnd(ts: seq<Token>, i: nat): (j: nat)
    ensures i <= j
    decreases if i < |ts| then |ts| - i else 0
  {
    if !Is(ts, i, TVar) then i
    else if !Is(ts, NamesEnd(ts, i + 1), TColon) then Skip(ts, NamesEnd(ts, i + 1), DECLARATIONS_FOLLOW)
    else if !GroupRead(ts, i + 1) then Skip(ts, NamesEnd(ts, i + 1) + 1, DECLARATIONS_FOLLOW)
    else if !Is(ts, GroupEnd(ts, i + 1), TSemicolon) then Skip(ts, GroupEnd(ts, i + 1), DECLARATIONS_FOLLOW)
    else VariablesEnd(ts, GroupEnd(ts, i + 1) + 1)
  }

  predicate SomeNullArguments(ts: seq<Token>, at: seq<nat>) {
    exists i :: i in at && NullArguments(ts, i)
  }

  predicate SomeNullVariables(ts: seq<Token>, at: seq<nat>) {
    exists i :: i in at && NullVariables(ts, i)
  }

  lemma FirstArguments(ts: seq<Token>, i: nat, rest: seq<nat>)
    ensures SomeNullArguments(ts, [i] + rest) <==> NullArguments(ts, i) || SomeNullArguments(ts, rest)
  {
    assert ([i] + rest)[0] == i && forall j :: j in [i] + rest <==> j == i || j in rest;
  }

  lemma FirstVariables(ts: seq<Token>, i: nat, rest: seq<nat>)
    ensures SomeNullVariables(ts, [i] + rest) <==> NullVariables(ts, i) || SomeNullVariables(ts, rest)
  {
    assert ([i] + rest)[0] == i && forall j :: j in [i] + rest <==> j == i || j in rest;
  }

  /** Reading an argument list goes through a null list exactly when one of its groups lacks its names in this way. */
  lemma {:induction false} ArgumentListFaults(ts: seq<Token>, s: State)
    requires !Raised(s)
    ensures ParseArgumentList(ts, s).0.fault <==> s.fault || SomeNullArguments(ts, ArgumentLists(ts, s.pos))
    decreases Left(ts, s)
  {
    hide ParseType, ParseIdentifierList, NamesEnd, TypeEnd, SomeNullArguments, Declare, Report, Moves, Consistent;
    var (s1, ids) := ParseIdentifierList(ts, s);
    NamesStep(ts, s);
    FirstArguments(ts, s.pos, ArgumentLists(ts, s.pos)[1..]);
    NothingNull(ts);
    if Is(ts, s1.pos, TColon) {
      TypeStep(ts, s1.(pos := s1.pos + 1));
      if GroupRead(ts, s.pos) {
        var s4 := DeclareAll(ParseType(ts, s1.(pos := s1.pos + 1)).0, ids, ParseType(ts, s1.(pos := s1.pos + 1)).1).0;
        if Is(ts, s4.pos, TSemicolon) {
          ArgumentListFaults(ts, s4.(pos := s4.pos + 1));
        }
      }
    }
  }

  lemma NothingNull(ts: seq<Token>)
    ensures !SomeNullArguments(ts, []) && !SomeNullVariables(ts, [])
  {
  }

  lemma VariablesStep(ts: seq<Token>, s: State)
    requires !Raised(s)
    ensures var ((r, _, ok), i) := (ParseVariables(ts, s), s.pos);
      && !Raised(r) && (r.fault <==> s.fault || NullVariables(ts, i))
      && (ok <==> GroupRead(ts, i) && Is(ts, GroupEnd(ts, i), TSemicolon))
      && (ok ==> r.pos == GroupEnd(ts, i) + 1)
      && (!ok ==> r.pos == Skip(ts, if !Is(ts, NamesEnd(ts, i), TColon) then NamesEnd(ts, i)
                                    else if !GroupRead(ts, i) then NamesEnd(ts, i) + 1
                                    else GroupEnd(ts, i), DECLARATIONS_FOLLOW))
  {
    hide ParseType, ParseIdentifierList, NamesEnd, TypeEnd, Skip, Declare, Moves, Consistent;
    var (s1, ids) := ParseIdentifierList(ts, s);
    NamesStep(ts, s);
    if Is(ts, s1.pos, TColon) {
      TypeStep(ts, s1.(pos := s1.pos + 1));
    }
  }

  lemma SameCode(s: State, r: State)
    requires s.code == r.code && !Raised(s)
    ensures !Raised(r)
  {
  }

  lemma NoVariables(ts: seq<Token>, s: State)
    ensures !Is(ts, s.pos, TVar) ==> ParseDeclarations(ts, s).0 == s
  {
  }

  lemma ListsUnfolded(ts: seq<Token>, i: nat)
    ensures
      if !Is(ts, i, TVar) then VariableLists(ts, i) == []
      else if GroupRead(ts, i + 1) && Is(ts, GroupEnd(ts, i + 1), TSemicolon) then
        VariableLists(ts, i) == [i + 1] + VariableLists(ts, GroupEnd(ts, i + 1) + 1)
      else VariableLists(ts, i) == [i + 1] + []
  {
    hide GroupRead, GroupEnd;
  }

  lemma PartEnd(ts: seq<Token>, i: nat)
    ensures var j := GroupEnd(ts, i + 1);
      if !Is(ts, i, TVar) then VariablesEnd(ts, i) == i
      else if GroupRead(ts, i + 1) && Is(ts, j, TSemicolon) then
        j > i && i < |ts| && VariablesEnd(ts, i) == VariablesEnd(ts, j + 1)
      else
        VariablesEnd(ts, i) == Skip(ts, if !Is(ts, NamesEnd(ts, i + 1), TColon) then NamesEnd(ts, i + 1)
                                        else if !GroupRead(ts, i + 1) then NamesEnd(ts, i + 1) + 1
                                        else j, DECLARATIONS_FOLLOW)
  {
    hide NamesEnd, TypeEnd, Skip;
  }

  /** Reading a declaration part goes through a null list exactly when one of its groups lacks its names in
      this way. */
  lemma {:induction false} DeclarationFaults(ts: seq<Token>, s: State)
    requires !Raised(s)
    ensures var r := ParseDeclarations(ts, s).0;
      && (r.fault <==> s.fault || SomeNullVariables(ts, VariableLists(ts, s.pos)))
      && !Raised(r) && r.pos == VariablesEnd(ts, s.pos)
    decreases if s.pos < |ts| then |ts| - s.pos else 0
  {
    ListsUnfolded(ts, s.pos);
    PartEnd(ts, s.pos);
    hide *;
    if Is(ts, s.pos, TVar) {
      var s0 := s.(pos := s.pos + 1);
      assert !Raised(s0) by { SameCode(s, s0); }
      VariablesStep(ts, s0);
      DeclarationsStep(ts, s);
      var (s1, _, ok) := ParseVariables(ts, s0);
      if ok {
        DeclarationFaults(ts, s1);
        FirstVariables(ts, s0.pos, VariableLists(ts, s1.pos));
      } else {
        FirstVariables(ts, s0.pos, []);
      }
      NothingNull(ts);
    } else {
      NothingNull(ts);
      NoVariables(ts, s);
    }
  }

  // ----- whole inputs -----

  /** A list of names that the parser reads: where it begins, and what it is part of. */
  datatype Reading = Variables(at: nat) | Arguments(at: nat)

  /** The list is null and the parser goes through it all the same. */
  predicate NullList(ts: seq<Token>, r: Reading) {
    match r
    case Variables(i) => NullVariables(ts, i)
    case Arguments(i) => NullArguments(ts, i)
  }

  /** Where the lists begin that the parser reads in the head of a subprogram at `i`. */
  function HeadLists(ts: seq<Token>, i: nat): seq<nat> {
    if Is(ts, i + 1, TIdentifier) && Is(ts, i + 2, TLParen) then ArgumentLists(ts, i + 3) else []
  }

  predicate StartsSubprogram(k: Kind) {
    k.TFunction? || k.TProcedure?
  }

  /** `r` is among the lists the parser reads in the subprograms from `s` on. */
  predicate SubprogramsRead(ts: seq<Token>, s: State, r: Reading)
    decreases Left(ts, s)
  {
    && StartsSubprogram(Cur(ts, s.pos).kind)
    && var (head, next) := (ParseSubprogramHead(ts, s).0, ParseSubprogramDeclaration(ts, s).0);
       || (r.Arguments? && r.at in HeadLists(ts, s.pos))
       || (r.Variables? && r.at in VariableLists(ts, head.pos))
       || (!Raised(next) && Is(ts, next.pos, TSemicolon) && SubprogramsRead(ts, next.(pos := next.pos + 1), r))
  }

  /** `r` is among the lists the parser reads in the whole input. */
  predicate Reads(ts: seq<Token>, r: Reading) {
    var (s, _, _, ok) := ParseHeading(ts, START);
    && ok
    && ((r.Variables? && r.at in VariableLists(ts, s.pos)) || SubprogramsRead(ts, ParseDeclarations(ts, s).0, r))
  }

  lemma HeadFaults(ts: seq<Token>, s: State)
    requires !Raised(s) && StartsSubprogram(Cur(ts, s.pos).kind)
    ensures var r := ParseSubprogramHead(ts, s).0;
      !Raised(r) && (r.fault <==> s.fault || SomeNullArguments(ts, HeadLists(ts, s.pos)))
  {
    hide Skip, Moves, Consistent, Cur, ParseSubprogramName, HeadLists, SomeNullArguments;
    NamePartFaults(ts, s, Is(ts, s.pos, TFunction));
  }

  lemma NamePartFaults(ts: seq<Token>, s: State, isFunction: bool)
    requires !Raised(s) && Is(ts, s.pos, if isFunction then TFunction else TProcedure)
    ensures var r := ParseSubprogramName(ts, s, isFunction).0;
      !Raised(r) && (r.fault <==> s.fault || SomeNullArguments(ts, HeadLists(ts, s.pos)))
  {
    hide Skip, Moves, Consistent, Is, Cur, ParseArguments, ArgumentLists, SomeNullArguments;
    NothingNull(ts);
    ArgumentsFault(ts, s.(pos := s.pos + 2));
  }

  lemma ArgumentsFault(ts: seq<Token>, s: State)
    requires !Raised(s)
    ensures ParseArguments(ts, s).0.fault <==>
      s.fault || (Is(ts, s.pos, TLParen) && SomeNullArguments(ts, ArgumentLists(ts, s.pos + 1)))
  {
    hide Skip, Moves, Consistent, ParseArgumentList, ArgumentLists, SomeNullArguments;
    if Is(ts, s.pos, TLParen) {
      ArgumentListFaults(ts, s.(pos := s.pos + 1));
    }
  }

  lemma SubprogramFaults(ts: seq<Token>, s: State)
    requires !Raised(s) && StartsSubprogram(Cur(ts, s.pos).kind)
    ensures (ParseSubprogramDeclaration(ts, s).0.fault <==>
      || s.fault || SomeNullArguments(ts, HeadLists(ts, s.pos))
      || SomeNullVariables(ts, VariableLists(ts, ParseSubprogramHead(ts, s).0.pos)))
  {
    hide Skip, Moves, Consistent, HeadLists, VariableLists, VariablesEnd, SomeNullArguments, SomeNullVariables,
      ParseSubprogramHead, ParseDeclarations, ParseCompoundStatement;
    HeadFaults(ts, s);
    DeclarationFaults(ts, ParseSubprogramHead(ts, s).0);
  }

  ghost predicate SomeNullSubprogramList(ts: seq<Token>, s: State) {
    exists r :: SubprogramsRead(ts, s, r) && NullList(ts, r)
  }

  lemma {:induction false} SubprogramsFaults(ts: seq<Token>, s: State)
    requires !Raised(s)
    ensures ParseSubprogramDeclarations(ts, s).0.fault <==> s.fault || SomeNullSubprogramList(ts, s)
    decreases Left(ts, s)
  {
    hide ParseSubprogramDeclaration, ParseSubprogramHead, HeadLists, VariableLists, NullArguments, NullVariables,
      Skip, Consistent;
    if StartsSubprogram(Cur(ts, s.pos).kind) {
      SubprogramFaults(ts, s);
      var next := ParseSubprogramDeclaration(ts, s).0;
      FirstSubprogramLists(ts, s);
      if !Raised(next) && Is(ts, next.pos, TSemicolon) {
        SubprogramsFaults(ts, next.(pos := next.pos + 1));
      }
    }
  }

  lemma FirstSubprogramLists(ts: seq<Token>, s: State)
    requires StartsSubprogram(Cur(ts, s.pos).kind)
    ensures var (head, next) := (ParseSubprogramHead(ts, s).0, ParseSubprogramDeclaration(ts, s).0);
      SomeNullSubprogramList(ts, s) <==>
        || SomeNullArguments(ts, HeadLists(ts, s.pos))
        || SomeNullVariables(ts, VariableLists(ts, head.pos))
        || (!Raised(next) && Is(ts, next.pos, TSemicolon) && SomeNullSubprogramList(ts, next.(pos := next.pos + 1)))
  {
    hide ParseSubprogramDeclaration, ParseSubprogramHead, HeadLists, VariableLists, NullArguments, NullVariables,
      Skip, Moves, Consistent;
    var (head, next) := (ParseSubprogramHead(ts, s).0, ParseSubprogramDeclaration(ts, s).0);
    if SomeNullArguments(ts, HeadLists(ts, s.pos)) {
      var i :| i in HeadLists(ts, s.pos) && NullArguments(ts, i);
      assert SubprogramsRead(ts, s, Arguments(i)) && NullList(ts, Arguments(i));
    }
    if SomeNullVariables(ts, VariableLists(ts, head.pos)) {
      var i :| i in VariableLists(ts, head.pos) && NullVariables(ts, i);
      assert SubprogramsRead(ts, s, Variables(i)) && NullList(ts, Variables(i));
    }
    if !Raised(next) && Is(ts, next.pos, TSemicolon) && SomeNullSubprogramList(ts, next.(pos := next.pos + 1)) {
      var r :| SubprogramsRead(ts, next.(pos := next.pos + 1), r) && NullList(ts, r);
      assert SubprogramsRead(ts, s, r);
    }
  }

  lemma HeadingUnraised(ts: seq<Token>)
    ensures ParseHeading(ts, START).3 ==> !Raised(ParseHeading(ts, START).0)
  {
    hide Skip, ParseIdentifierList, Moves, Consistent;
  }

  lemma BlockFaults(ts: seq<Token>, s: State, name: Identifier, files: Identifiers)
    requires !Raised(s) && !s.fault
    ensures ParseBlock(ts, s, name, files).0.fault <==>
      || SomeNullVariables(ts, VariableLists(ts, s.pos))
      || SomeNullSubprogramList(ts, ParseDeclarations(ts, s).0)
  {
    hide Skip, Moves, Consistent, VariableLists, VariablesEnd, SomeNullVariables, SomeNullSubprogramList,
      ParseDeclarations, ParseSubprogramDeclarations, ParseCompoundStatement;
    DeclarationFaults(ts, s);
    SubprogramsFaults(ts, ParseDeclarations(ts, s).0);
  }

  /** The parser goes through a null list exactly when one of the lists it reads lacks its names in this way. */
  lemma NullListIff(ts: seq<Token>)
    ensures Parse(ts).0.fault <==> exists r :: Reads(ts, r) && NullList(ts, r)
  {
    hide ParseHeading, ParseBlock, ParseDeclarations, VariableLists, NullVariables, NullArguments, SubprogramsRead,
      Moves, Consistent;
    var (s, name, files, ok) := ParseHeading(ts, START);
    if ok {
      HeadingUnraised(ts);
      BlockFaults(ts, s, name, files);
      if SomeNullVariables(ts, VariableLists(ts, s.pos)) {
        var i :| i in VariableLists(ts, s.pos) && NullVariables(ts, i);
        assert Reads(ts, Variables(i)) && NullList(ts, Variables(i));
      }
      if SomeNullSubprogramList(ts, ParseDeclarations(ts, s).0) {
        var r :| SubprogramsRead(ts, ParseDeclarations(ts, s).0, r) && NullList(ts, r);
        assert Reads(ts, r);
      }
    }
  }

  // ----- inputs that are safe whatever else is wrong with them -----

  lemma {:induction false} VariablesAfter(ts: seq<Token>, i: nat, j: nat)
    requires j in VariableLists(ts, i)
    ensures 0 < j && Is(ts, j - 1, TVar)
    decreases if i < |ts| then |ts| - i else 0
  {
    hide VariableLists, GroupRead, GroupEnd;
    ListsUnfolded(ts, i);
    if j != i + 1 {
      VariablesAfter(ts, GroupEnd(ts, i + 1) + 1, j);
    }
  }

  /** `i` is the place that makes the parser read `r`: the `var` before it, or the beginning of the head it is in. */
  predicate Introduces(ts: seq<Token>, i: nat, r: Reading) {
    if r.Variables? then r.at == i + 1 && Is(ts, i, TVar)
    else StartsSubprogram(Cur(ts, i).kind) && r.at in HeadLists(ts, i)
  }

  lemma {:induction false} SubprogramsReadAfter(ts: seq<Token>, s: State, r: Reading) returns (i: nat)
    requires SubprogramsRead(ts, s, r)
    ensures Introduces(ts, i, r)
    decreases Left(ts, s)
  {
    hide ParseSubprogramDeclaration, ParseSubprogramHead, ArgumentLists, VariableLists, Skip, Consistent;
    var (head, next) := (ParseSubprogramHead(ts, s).0, ParseSubprogramDeclaration(ts, s).0);
    if r.Arguments? && r.at in HeadLists(ts, s.pos) {
      i := s.pos;
    } else if r.Variables? && r.at in VariableLists(ts, head.pos) {
      VariablesAfter(ts, head.pos, r.at);
      i := r.at - 1;
    } else {
      i := SubprogramsReadAfter(ts, next.(pos := next.pos + 1), r);
    }
  }

  lemma ReadsAfter(ts: seq<Token>, r: Reading) returns (i: nat)
    requires Reads(ts, r)
    ensures Introduces(ts, i, r)
  {
    hide ParseHeading, ParseDeclarations, VariableLists, SubprogramsRead;
    var s := ParseHeading(ts, START).0;
    if r.Variables? && r.at in VariableLists(ts, s.pos) {
      VariablesAfter(ts, s.pos, r.at);
      i := r.at - 1;
    } else {
      i := SubprogramsReadAfter(ts, ParseDeclarations(ts, s).0, r);
    }
  }

  /** A `var` at `i` is not followed by a null list, and the head of a subprogram at `i` has none. */
  predicate ListPresent(ts: seq<Token>, i: nat) {
    && (Is(ts, i, TVar) ==> !NullVariables(ts, i + 1))
    && (StartsSubprogram(Cur(ts, i).kind) ==> !SomeNullArguments(ts, HeadLists(ts, i)))
  }

  predicate ListsPresent(ts: seq<Token>) {
    forall i: nat :: i < |ts| ==> ListPresent(ts, i)
  }

  lemma IntroducedPresent(ts: seq<Token>, i: nat, r: Reading)
    requires ListsPresent(ts) && Introduces(ts, i, r)
    ensures !NullList(ts, r)
  {
    hide NullArguments, NullVariables, HeadLists;
    assert i < |ts|;
    assert ListPresent(ts, i);
  }

  /** On such an input the parser never goes through a null list, however many errors it finds. */
  lemma Safe(ts: seq<Token>)
    requires ListsPresent(ts)
    ensures !Parse(ts).0.fault
  {
    hide Parse, Reads, NullList, Introduces, ListsPresent;
    NullListIff(ts);
    if Parse(ts).0.fault {
      var r :| Reads(ts, r) && NullList(ts, r);
      var i := ReadsAfter(ts, r);
      IntroducedPresent(ts, i, r);
    }
  }

  // ----- programs without subprograms -----

  /** Behind a proper heading a null list among the program's variables is gone through; when no subprogram
      follows there is no other way. */
  lemma ProgramFaults(ts: seq<Token>, name: Identifier, files: Identifiers)
    requires PlainName(name) && PlainNames(files) && EndOfHeading(ts, 0, name, files) >= 0
    ensures var i := EndOfHeading(ts, 0, name, files);
      && (SomeNullVariables(ts, VariableLists(ts, i)) ==> Parse(ts).0.fault)
      && (!StartsSubprogram(Cur(ts, VariablesEnd(ts, i)).kind) ==>
           (Parse(ts).0.fault <==> SomeNullVariables(ts, VariableLists(ts, i))))
  {
    HeadingAccepted(ts, START, name, files);
    var s := State(EndOfHeading(ts, 0, name, files), NoError, 0, false);
    assert !Raised(s);
    DeclarationFaults(ts, s);
    BlockFaults(ts, s, name, files);
    NoSubprogramFollows(ts, ParseDeclarations(ts, s).0);
    hide EndOfHeading, ParseHeading, ParseDeclarations, ParseBlock, VariableLists, VariablesEnd, SomeNullVariables,
      SomeNullSubprogramList;
  }

  lemma NoSubprogramFollows(ts: seq<Token>, s: State)
    ensures !StartsSubprogram(Cur(ts, s.pos).kind) ==> !SomeNullSubprogramList(ts, s)
  {
  }

  // ----- an example -----

  /** `program x ( x ) ; var = : integer ;` */
  function Broken(): seq<Token> {
    [Word(TProgram), IdToken("x"), Word(TLParen), IdToken("x"), Word(TRParen), Word(TSemicolon),
     Word(TVar), OpToken(TRelOp, Equal), Word(TColon), Word(TInteger), Word(TSemicolon)]
  }

  lemma BrokenHeading()
    ensures EndOfHeading(Broken(), 0, Identifier("x", NullExpression, NoParameters),
                         Identifiers([Identifier("x", NullExpression, NoParameters)])) == 6
  {
  }

  lemma BrokenNames(ts: seq<Token>, i: nat)
    requires i + 3 < |ts| && ts[i].kind.TRelOp? && ts[i + 1].kind.TColon? && ts[i + 2].kind.TInteger?
    requires ts[i + 3].kind.TSemicolon?
    ensures NullVariables(ts, i)
  {
    assert Skip(ts, i, IDENTIFIER_LIST_FOLLOW) == i + 1;
  }

  /** On this input the parser goes through a null list. */
  lemma FaultExample()
    ensures Parse(Broken()).0.fault
  {
    hide Parse, EndOfHeading, NullVariables;
    BrokenHeading();
    BrokenNames(Broken(), 7);
    assert VariableLists(Broken(), 6)[0] == 7;
    ProgramFaults(Broken(), Identifier("x", NullExpression, NoParameters),
                  Identifiers([Identifier("x", NullExpression, NoParameters)]));
  }
}
