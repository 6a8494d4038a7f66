/** The transition table of the escape sequence parser (xterm.js module 2015), a variant of the
    state machine of DEC VT500 terminals for the control functions of ECMA-48.

    `Entry` says what the table holds; `Build` makes the table the way the source does, by a long
    list of assignments in which later ones override earlier ones, and is proved to end up with it. */
module TransitionTable {

  const STATES: nat := 14
  /** All code points from 160 on share one column. */
  const NON_ASCII: nat := 160

  // states
  const GROUND: nat := 0
  const ESCAPE: nat := 1
  const ESCAPE_INTERMEDIATE: nat := 2
  const CSI_ENTRY: nat := 3
  const CSI_PARAM: nat := 4
  const CSI_INTERMEDIATE: nat := 5
  const CSI_IGNORE: nat := 6
  const SOS_PM_APC_STRING: nat := 7
  const OSC_STRING: nat := 8
  const DCS_ENTRY: nat := 9
  const DCS_PARAM: nat := 10
  const DCS_IGNORE: nat := 11
  const DCS_INTERMEDIATE: nat := 12
  const DCS_PASSTHROUGH: nat := 13

  // actions
  const IGNORE: nat := 0
  const ERROR: nat := 1
  const PRINT: nat := 2
  const EXECUTE: nat := 3
  const OSC_START: nat := 4
  const OSC_PUT: nat := 5
  const OSC_END: nat := 6
  const CSI_DISPATCH: nat := 7
  const PARAM: nat := 8
  const COLLECT: nat := 9
  const ESC_DISPATCH: nat := 10
  const CLEAR: nat := 11
  const DCS_HOOK: nat := 12
  const DCS_PUT: nat := 13
  const DCS_UNHOOK: nat := 14

  datatype Transition = Transition(action: nat, next: nat)

  type Column = c: nat | c < 256

  /** Control characters other than CAN, SUB and ESC. */
  predicate IsExecutable(c: nat) { c < 24 || c == 25 || 28 <= c < 32 }
  predicate IsPrintable(c: nat) { 32 <= c <= 126 }

  /** Transitions from anywhere: CAN, SUB, ESC and the C1 controls. */
  function Anywhere(c: nat): Transition {
    if c == 27 then Transition(CLEAR, ESCAPE)
    else if c == 144 then Transition(CLEAR, DCS_ENTRY)
    else if c == 155 then Transition(CLEAR, CSI_ENTRY)
    else if c == 157 then Transition(OSC_START, OSC_STRING)
    else if c == 152 || c == 158 || c == 159 then Transition(IGNORE, SOS_PM_APC_STRING)
    else if c == 156 then Transition(IGNORE, GROUND)
    else if c == 24 || c == 26 || 128 <= c <= 154 then Transition(EXECUTE, GROUND)
    else Transition(ERROR, GROUND)
  }

  /** The action and the next state for a state and a column. */
  function Entry(state: nat, c: nat): Transition {
    match state
    case 0 =>
      if IsExecutable(c) then Transition(EXECUTE, 0)
      else if IsPrintable(c) || c == NON_ASCII then Transition(PRINT, 0)
      else Anywhere(c)
    case 1 =>
      if IsExecutable(c) then Transition(EXECUTE, 1)
      else if c == 127 then Transition(IGNORE, 1)
      else if c < 32 || 127 < c then Anywhere(c)
      else if c < 48 then Transition(COLLECT, ESCAPE_INTERMEDIATE)
      else if c == 80 then Transition(CLEAR, DCS_ENTRY)
      else if c == 91 then Transition(CLEAR, CSI_ENTRY)
      else if c == 93 then Transition(OSC_START, OSC_STRING)
      else if c == 88 || c == 94 || c == 95 then Transition(IGNORE, SOS_PM_APC_STRING)
      else Transition(ESC_DISPATCH, GROUND)
    case 2 =>
      if IsExecutable(c) then Transition(EXECUTE, 2)
      else if c == 127 then Transition(IGNORE, 2)
      else if c < 32 || 127 < c then Anywhere(c)
      else if c < 48 then Transition(COLLECT, 2)
      else Transition(ESC_DISPATCH, GROUND)
    case 3 =>
      if IsExecutable(c) then Transition(EXECUTE, 3)
      else if c == 127 then Transition(IGNORE, 3)
      else if c < 32 || 127 < c then Anywhere(c)
      else if c < 48 then Transition(COLLECT, CSI_INTERMEDIATE)
      else if c < 60 then Transition(PARAM, CSI_PARAM)
      else if c < 64 then Transition(COLLECT, CSI_PARAM)
      else Transition(CSI_DISPATCH, GROUND)
    case 4 =>
      if IsExecutable(c) then Transition(EXECUTE, 4)
      else if c == 127 then Transition(IGNORE, 4)
      else if c < 32 || 127 < c then Anywhere(c)
      else if c < 48 then Transition(COLLECT, CSI_INTERMEDIATE)
      else if c < 60 then Transition(PARAM, CSI_PARAM)
      else if c < 64 then Transition(IGNORE, CSI_IGNORE)
      else Transition(CSI_DISPATCH, GROUND)
    case 5 =>
      if IsExecutable(c) then Transition(EXECUTE, 5)
      else if c == 127 then Transition(IGNORE, 5)
      else if c < 32 || 127 < c then Anywhere(c)
      else if c < 48 then Transition(COLLECT, 5)
      else if c < 64 then Transition(IGNORE, CSI_IGNORE)
      else Transition(CSI_DISPATCH, GROUND)
    case 6 =>
      if IsExecutable(c) then Transition(EXECUTE, 6)
      else if 32 <= c < 64 || c == 127 || c == NON_ASCII then Transition(IGNORE, 6)
      else if 64 <= c < 127 then Transition(IGNORE, GROUND)
      else Anywhere(c)
    case 7 =>
      if IsExecutable(c) || 32 <= c <= 127 then Transition(IGNORE, 7)
      else Anywhere(c)
    case 8 =>
      if c == 7 || c == 24 || c == 26 || c == 27 || c == 156 then Transition(OSC_END, GROUND)
      else if c < 32 then Transition(IGNORE, 8)
      else if c <= 127 || c == NON_ASCII then Transition(OSC_PUT, 8)
      else Anywhere(c)
    case 9 =>
      if IsExecutable(c) || c == 127 then Transition(IGNORE, 9)
      else if c < 32 || 127 < c then Anywhere(c)
      else if c < 48 then Transition(COLLECT, DCS_INTERMEDIATE)
      else if c < 60 then Transition(PARAM, DCS_PARAM)
      else if c < 64 then Transition(COLLECT, DCS_PARAM)
      else Transition(DCS_HOOK, DCS_PASSTHROUGH)
    case 10 =>
      if IsExecutable(c) || c == 127 then Transition(IGNORE, 10)
      else if c < 32 || 127 < c then Anywhere(c)
      else if c < 48 then Transition(COLLECT, DCS_INTERMEDIATE)
      else if c < 60 then Transition(PARAM, DCS_PARAM)
      else if c < 64 then Transition(IGNORE, DCS_IGNORE)
      else Transition(DCS_HOOK, DCS_PASSTHROUGH)
    case 11 =>
      if IsExecutable(c) || 32 <= c <= 127 || c == NON_ASCII then Transition(IGNORE, 11)
      else Anywhere(c)
    case 12 =>
      if IsExecutable(c) || c == 127 then Transition(IGNORE, 12)
      else if c < 32 || 127 < c then Anywhere(c)
      else if c < 48 then Transition(COLLECT, 12)
      else if c < 64 then Transition(IGNORE, DCS_IGNORE)
      else Transition(DCS_HOOK, DCS_PASSTHROUGH)
    case 13 =>
      if c == 24 || c == 26 || c == 27 || c == 156 then Transition(DCS_UNHOOK, GROUND)
      else if c < 127 || c == NON_ASCII then Transition(DCS_PUT, 13)
      else if c == 127 then Transition(IGNORE, 13)
      else Anywhere(c)
    case _ => Transition(ERROR, GROUND)
  }

  // ---------------------------------------------------------------- the table as built

  predicate In(c: nat, lo: nat, hi: nat) { lo <= c < hi }

  /** An action and a state as one table element. */
  function T(action: nat, next: nat): nat { action * 16 + next }

  function Packed(t: Transition): nat { T(t.action, t.next) }

  /** The assignments made for every state; the last one comes first. */
  function ForEveryState(c: nat, d: nat): nat {
    if c == 144 then T(11, 9)
    else if c == 155 then T(11, 3)
    else if c == 152 || c == 158 || c == 159 then T(0, 7)
    else if c == 157 then T(4, 8)
    else if c == 27 then T(11, 1)
    else if c == 156 then T(0, 0)
    else if 144 <= c < 152 then T(3, 0)
    else if 128 <= c < 144 then T(3, 0)
    else if c == 24 || c == 26 || c == 153 || c == 154 then T(3, 0)
    else d
  }

  /** The later assignments in groups, each over what was there before. */
  function Group1(s: nat, c: nat, d: nat): nat {
    if s == 2 && c == 127 then T(0, 2)
    else if s == 2 && IsExecutable(c) then T(3, 2)
    else if s == 5 && c == 127 then T(0, 5)
    else if s == 5 && IsExecutable(c) then T(3, 5)
    else if s == 6 && IsExecutable(c) then T(3, 6)
    else if s == 4 && c == 127 then T(0, 4)
    else if s == 4 && IsExecutable(c) then T(3, 4)
    else if s == 3 && c == 127 then T(0, 3)
    else if s == 3 && IsExecutable(c) then T(3, 3)
    else if s == 8 && IsExecutable(c) then T(0, 8)
    else if s == 1 && c == 127 then T(0, 1)
    else if s == 1 && IsExecutable(c) then T(3, 1)
    else if s == 0 && IsExecutable(c) then T(3, 0)
    else d
  }

  function Group2(s: nat, c: nat, d: nat): nat {
    if s == 3 && 64 <= c < 127 then T(7, 0)
    else if s == 1 && c == 91 then T(11, 3)
    else if s == 7 && c == 127 then T(0, 7)
    else if s == 7 && c == 156 then T(0, 0)
    else if s == 7 && IsExecutable(c) then T(0, 7)
    else if s == 7 && IsPrintable(c) then T(0, 7)
    else if s == 1 && (c == 88 || c == 94 || c == 95) then T(0, 7)
    else OscGroup(s, c, d)
  }

  function OscGroup(s: nat, c: nat, d: nat): nat {
    if s == 8 && 28 <= c < 32 then T(0, 8)
    else if s == 8 && (c == 156 || c == 27 || c == 24 || c == 26 || c == 7) then T(6, 0)
    else if s == 8 && c == 127 then T(5, 8)
    else if s == 8 && IsPrintable(c) then T(5, 8)
    else if s == 1 && c == 93 then T(4, 8)
    else d
  }

  function Group3(s: nat, c: nat, d: nat): nat {
    if s == 5 && 64 <= c < 127 then T(7, 0)
    else if s == 5 && 48 <= c < 64 then T(0, 6)
    else if s == 5 && 32 <= c < 48 then T(9, 5)
    else if s == 3 && 32 <= c < 48 then T(9, 5)
    else if s == 6 && 64 <= c < 127 then T(0, 0)
    else if s == 6 && c == 127 then T(0, 6)
    else if s == 6 && 32 <= c < 64 then T(0, 6)
    else if s == 4 && 60 <= c < 64 then T(0, 6)
    else if s == 4 && 64 <= c < 127 then T(7, 0)
    else if s == 4 && 48 <= c < 60 then T(8, 4)
    else if s == 3 && 60 <= c < 64 then T(9, 4)
    else if s == 3 && 48 <= c < 60 then T(8, 4)
    else d
  }

  function Group4(s: nat, c: nat, d: nat): nat {
    if s == 9 && 60 <= c < 64 then T(9, 10)
    else if s == 9 && 48 <= c < 60 then T(8, 10)
    else if s == 9 && 32 <= c < 48 then T(9, 12)
    else if s == 9 && 28 <= c < 32 then T(0, 9)
    else if s == 9 && c == 127 then T(0, 9)
    else if s == 9 && IsExecutable(c) then T(0, 9)
    else EscGroup(s, c, d)
  }

  function EscGroup(s: nat, c: nat, d: nat): nat {
    if s == 1 && c == 80 then T(11, 9)
    else if s == 1 && 96 <= c < 127 then T(10, 0)
    else if s == 1 && (c == 89 || c == 90 || c == 92) then T(10, 0)
    else if s == 1 && 81 <= c < 88 then T(10, 0)
    else if s == 1 && 48 <= c < 80 then T(10, 0)
    else if s == 2 && 48 <= c < 127 then T(10, 0)
    else if s == 2 && 32 <= c < 48 then T(9, 2)
    else if s == 1 && 32 <= c < 48 then T(9, 2)
    else if s == 4 && 32 <= c < 48 then T(9, 5)
    else d
  }

  function Group5(s: nat, c: nat, d: nat): nat {
    if s == 12 && 64 <= c < 127 then T(12, 13)
    else if s == 12 && 48 <= c < 64 then T(0, 11)
    else if s == 12 && 32 <= c < 48 then T(9, 12)
    else if s == 12 && 28 <= c < 32 then T(0, 12)
    else if s == 12 && c == 127 then T(0, 12)
    else if s == 12 && IsExecutable(c) then T(0, 12)
    else if s == 10 && 32 <= c < 48 then T(9, 12)
    else if s == 10 && 60 <= c < 64 then T(0, 11)
    else if s == 10 && 48 <= c < 60 then T(8, 10)
    else if s == 10 && 28 <= c < 32 then T(0, 10)
    else if s == 10 && c == 127 then T(0, 10)
    else if s == 10 && IsExecutable(c) then T(0, 10)
    else if s == 11 && 28 <= c < 32 then T(0, 11)
    else if s == 11 && 32 <= c < 128 then T(0, 11)
    else if s == 11 && IsExecutable(c) then T(0, 11)
    else d
  }

  function Group6(s: nat, c: nat, d: nat): nat {
    if s == 13 && c == 160 then T(13, 13)
    else if s == 11 && c == 160 then T(0, 11)
    else if s == 6 && c == 160 then T(0, 6)
    else if s == 8 && c == 160 then T(5, 8)
    else if s == 0 && c == 160 then T(2, 0)
    else DcsGroup(s, c, d)
  }

  function DcsGroup(s: nat, c: nat, d: nat): nat {
    if s == 13 && (c == 27 || c == 156 || c == 24 || c == 26) then T(14, 0)
    else if s == 13 && c == 127 then T(0, 13)
    else if s == 13 && IsPrintable(c) then T(13, 13)
    else if s == 13 && IsExecutable(c) then T(13, 13)
    else if s == 9 && 64 <= c < 127 then T(12, 13)
    else if s == 10 && 64 <= c < 127 then T(12, 13)
    else d
  }

  function Assigned(s: nat, c: nat): nat {
    Group6(s, c, Group5(s, c, Group4(s, c, Group3(s, c, Group2(s, c, Group1(s, c,
      ForEveryState(c, if s == 0 && IsPrintable(c) then T(2, 0) else T(1, 0))))))))
  }

  /** All the assignments together give the table by states. */
  lemma AssignedIsEntry(s: nat, c: Column)
    requires s < STATES
    ensures Assigned(s, c) == Packed(Entry(s, c))
  {
    if s == 0 {
      AssignedFrom0(s, c);
    } else if s == 1 {
      AssignedFrom1(s, c);
    } else if s < 4 {
      AssignedFrom2(s, c);
    } else if s < 6 {
      AssignedFrom4(s, c);
    } else if s == 6 {
      AssignedFrom6(s, c);
    } else if s == 7 {
      AssignedFrom7(s, c);
    } else if s == 8 {
      AssignedFrom8(s, c);
    } else if s < 11 {
      AssignedFrom9(s, c);
    } else {
      AssignedFrom11(s, c);
    }
  }

  /** State by state: the groups that matter to it, and what they come to. */
  lemma AssignedFrom0(s: nat, c: Column)
    requires s == 0
    ensures Assigned(s, c) == Packed(Entry(s, c))
  {
  }

  lemma AssignedFrom1(s: nat, c: Column)
    requires s == 1
    ensures Assigned(s, c) == Packed(Entry(s, c))
  {
    var d := ForEveryState(c, T(1, 0));
    OnlyFrom1(s, c, d);
    FinallyFrom1(s, c, d);
  }

  lemma OnlyFrom1(s: nat, c: Column, d: nat)
    requires s == 1 && d == ForEveryState(c, T(1, 0))
    ensures Assigned(s, c) == Group4(s, c, Group2(s, c, Group1(s, c, d)))
  {
  }

  lemma FinallyFrom1(s: nat, c: Column, d: nat)
    requires s == 1 && d == ForEveryState(c, T(1, 0))
    ensures Group4(s, c, Group2(s, c, Group1(s, c, d))) == Packed(Entry(s, c))
  {
  }

  lemma AssignedFrom2(s: nat, c: Column)
    requires 2 <= s < 4
    ensures Assigned(s, c) == Packed(Entry(s, c))
  {
  }

  lemma AssignedFrom4(s: nat, c: Column)
    requires 4 <= s < 6
    ensures Assigned(s, c) == Packed(Entry(s, c))
  {
  }

  lemma AssignedFrom6(s: nat, c: Column)
    requires s == 6
    ensures Assigned(s, c) == Packed(Entry(s, c))
  {
  }

  lemma AssignedFrom7(s: nat, c: Column)
    requires s == 7
    ensures Assigned(s, c) == Packed(Entry(s, c))
  {
    var d := ForEveryState(c, T(1, 0));
    OnlyFrom7(s, c, d);
    FinallyFrom7(s, c, d);
  }

  lemma OnlyFrom7(s: nat, c: Column, d: nat)
    requires s == 7 && d == ForEveryState(c, T(1, 0))
    ensures Assigned(s, c) == Group2(s, c, d)
  {
  }

  lemma FinallyFrom7(s: nat, c: Column, d: nat)
    requires s == 7 && d == ForEveryState(c, T(1, 0))
    ensures Group2(s, c, d) == Packed(Entry(s, c))
  {
  }

  lemma AssignedFrom8(s: nat, c: Column)
    requires s == 8
    ensures Assigned(s, c) == Packed(Entry(s, c))
  {
    var d := ForEveryState(c, T(1, 0));
    OnlyFrom8(s, c, d);
    FinallyFrom8(s, c, d);
  }

  lemma OnlyFrom8(s: nat, c: Column, d: nat)
    requires s == 8 && d == ForEveryState(c, T(1, 0))
    ensures Assigned(s, c) == Group6(s, c, Group2(s, c, Group1(s, c, d)))
  {
  }

  lemma FinallyFrom8(s: nat, c: Column, d: nat)
    requires s == 8 && d == ForEveryState(c, T(1, 0))
    ensures Group6(s, c, Group2(s, c, Group1(s, c, d))) == Packed(Entry(s, c))
  {
  }

  lemma AssignedFrom9(s: nat, c: Column)
    requires 9 <= s < 11
    ensures Assigned(s, c) == Packed(Entry(s, c))
  {
  }

  lemma AssignedFrom11(s: nat, c: Column)
    requires 11 <= s < STATES
    ensures Assigned(s, c) == Packed(Entry(s, c))
  {
    var d := ForEveryState(c, T(1, 0));
    OnlyFrom11(s, c, d);
    FinallyFrom11(s, c, d);
  }

  lemma OnlyFrom11(s: nat, c: Column, d: nat)
    requires 11 <= s < STATES && d == ForEveryState(c, T(1, 0))
    ensures Assigned(s, c) == Group6(s, c, Group5(s, c, d))
  {
  }

  lemma FinallyFrom11(s: nat, c: Column, d: nat)
    requires 11 <= s < STATES && d == ForEveryState(c, T(1, 0))
    ensures Group6(s, c, Group5(s, c, d)) == Packed(Entry(s, c))
  {
  }

  function Range(lo: nat, hi: nat): (r: seq<Column>)
    requires lo <= hi <= 256
    ensures forall c: nat :: c in r <==> In(c, lo, hi)
  {
    var r: seq<Column> := seq(hi - lo, i requires 0 <= i < hi - lo => lo + i);
    assert forall c: nat | In(c, lo, hi) :: r[c - lo] == c;
    r
  }

  function Printables(): (r: seq<Column>)
    ensures forall c: nat :: c in r <==> IsPrintable(c)
  {
    Range(32, 127)
  }

  function Executables(): (r: seq<Column>)
    ensures forall c: nat :: c in r <==> IsExecutable(c)
  {
    Range(0, 24) + [25] + Range(28, 32)
  }

  function Element(elements: seq<nat>, s: nat, c: nat): nat
    requires |elements| == 4095 && s < STATES && c < 256
  {
    elements[s * 256 + c]
  }

  ghost predicate IsVT500(elements: seq<nat>) {
    |elements| == 4095
    && forall s, c | 0 <= s < STATES && 0 <= c < 256 :: Element(elements, s, c) == Packed(Entry(s, c))
  }

  class Table {
    const table: array<nat>

    ghost predicate Valid()
      reads this
    {
      table.Length == 4095
    }

    ghost function Get(s: nat, c: nat): nat
      requires Valid() && s < STATES && c < 256
      reads this, table
    {
      table[s * 256 + c]
    }

    constructor (length: nat)
      requires length == 4095
      ensures Valid() && fresh(table)
    {
      table := new nat[length];
    }

    method SetDefault(action: nat, next: nat)
      requires Valid()
      modifies table
      ensures forall s, c | 0 <= s < STATES && 0 <= c < 256 :: Get(s, c) == T(action, next)
    {
      for k := 0 to table.Length
        invariant forall j | 0 <= j < k :: table[j] == T(action, next)
      {
        table[k] := action * 16 + next;
      }
    }

    method Add(code: Column, state: nat, action: nat, next: nat)
      requires Valid() && state < STATES
      modifies table
      ensures forall s, c | 0 <= s < STATES && 0 <= c < 256 ::
                Get(s, c) == if s == state && c == code then T(action, next) else old(Get(s, c))
    {
      table[state * 256 + code] := action * 16 + next;
    }

    method AddMany(codes: seq<Column>, state: nat, action: nat, next: nat)
      requires Valid() && state < STATES
      modifies table
      ensures forall s, c | 0 <= s < STATES && 0 <= c < 256 ::
                Get(s, c) == if s == state && c in codes then T(action, next) else old(Get(s, c))
    {
      for r := 0 to |codes|
        invariant forall s, c | 0 <= s < STATES && 0 <= c < 256 ::
                    Get(s, c) == if s == state && c in codes[..r] then T(action, next) else old(Get(s, c))
      {
        Add(codes[r], state, action, next);
      }
    }

    method AddForState(o: nat)
      requires Valid() && o < STATES
      modifies table
      ensures forall s, c | 0 <= s < STATES && 0 <= c < 256 ::
                Get(s, c) == if s == o then ForEveryState(c, old(Get(s, c))) else old(Get(s, c))
    {
      AddMany([24, 26, 153, 154], o, 3, 0);
      AddMany(Range(128, 144), o, 3, 0);
      AddMany(Range(144, 152), o, 3, 0);
      Add(156, o, 0, 0);
      Add(27, o, 11, 1);
      Add(157, o, 4, 8);
      AddMany([152, 158, 159], o, 0, 7);
      Add(155, o, 11, 3);
      Add(144, o, 11, 9);
    }

    method AddGroup1()
      requires Valid()
      modifies table
      ensures forall s, c | 0 <= s < STATES && 0 <= c < 256 :: Get(s, c) == Group1(s, c, old(Get(s, c)))
    {
      AddMany(Executables(), 0, 3, 0);
      AddMany(Executables(), 1, 3, 1);
      Add(127, 1, 0, 1);
      AddMany(Executables(), 8, 0, 8);
      AddMany(Executables(), 3, 3, 3);
      Add(127, 3, 0, 3);
      AddMany(Executables(), 4, 3, 4);
      Add(127, 4, 0, 4);
      AddMany(Executables(), 6, 3, 6);
      AddMany(Executables(), 5, 3, 5);
      Add(127, 5, 0, 5);
      AddMany(Executables(), 2, 3, 2);
      Add(127, 2, 0, 2);
    }

    method AddOscGroup()
      requires Valid()
      modifies table
      ensures forall s, c | 0 <= s < STATES && 0 <= c < 256 :: Get(s, c) == OscGroup(s, c, old(Get(s, c)))
    {
      Add(93, 1, 4, 8);
      AddMany(Printables(), 8, 5, 8);
      Add(127, 8, 5, 8);
      AddMany([156, 27, 24, 26, 7], 8, 6, 0);
      AddMany(Range(28, 32), 8, 0, 8);
    }

    method AddGroup2()
      requires Valid()
      modifies table
      ensures forall s, c | 0 <= s < STATES && 0 <= c < 256 :: Get(s, c) == Group2(s, c, old(Get(s, c)))
    {
      AddOscGroup();
      AddMany([88, 94, 95], 1, 0, 7);
      AddMany(Printables(), 7, 0, 7);
      AddMany(Executables(), 7, 0, 7);
      Add(156, 7, 0, 0);
      Add(127, 7, 0, 7);
      Add(91, 1, 11, 3);
      AddMany(Range(64, 127), 3, 7, 0);
    }

    method AddGroup3()
      requires Valid()
      modifies table
      ensures forall s, c | 0 <= s < STATES && 0 <= c < 256 :: Get(s, c) == Group3(s, c, old(Get(s, c)))
    {
      AddMany(Range(48, 60), 3, 8, 4);
      AddMany(Range(60, 64), 3, 9, 4);
      AddMany(Range(48, 60), 4, 8, 4);
      AddMany(Range(64, 127), 4, 7, 0);
      AddMany(Range(60, 64), 4, 0, 6);
      AddMany(Range(32, 64), 6, 0, 6);
      Add(127, 6, 0, 6);
      AddMany(Range(64, 127), 6, 0, 0);
      AddMany(Range(32, 48), 3, 9, 5);
      AddMany(Range(32, 48), 5, 9, 5);
      AddMany(Range(48, 64), 5, 0, 6);
      AddMany(Range(64, 127), 5, 7, 0);
    }

    method AddEscGroup()
      requires Valid()
      modifies table
      ensures forall s, c | 0 <= s < STATES && 0 <= c < 256 :: Get(s, c) == EscGroup(s, c, old(Get(s, c)))
    {
      AddMany(Range(32, 48), 4, 9, 5);
      AddMany(Range(32, 48), 1, 9, 2);
      AddMany(Range(32, 48), 2, 9, 2);
      AddMany(Range(48, 127), 2, 10, 0);
      AddMany(Range(48, 80), 1, 10, 0);
      AddMany(Range(81, 88), 1, 10, 0);
      AddMany([89, 90, 92], 1, 10, 0);
      AddMany(Range(96, 127), 1, 10, 0);
      Add(80, 1, 11, 9);
    }

    method AddGroup4()
      requires Valid()
      modifies table
      ensures forall s, c | 0 <= s < STATES && 0 <= c < 256 :: Get(s, c) == Group4(s, c, old(Get(s, c)))
    {
      AddEscGroup();
      AddMany(Executables(), 9, 0, 9);
      Add(127, 9, 0, 9);
      AddMany(Range(28, 32), 9, 0, 9);
      AddMany(Range(32, 48), 9, 9, 12);
      AddMany(Range(48, 60), 9, 8, 10);
      AddMany(Range(60, 64), 9, 9, 10);
    }

    method AddGroup5()
      requires Valid()
      modifies table
      ensures forall s, c | 0 <= s < STATES && 0 <= c < 256 :: Get(s, c) == Group5(s, c, old(Get(s, c)))
    {
      AddMany(Executables(), 11, 0, 11);
      AddMany(Range(32, 128), 11, 0, 11);
      AddMany(Range(28, 32), 11, 0, 11);
      AddMany(Executables(), 10, 0, 10);
      Add(127, 10, 0, 10);
      AddMany(Range(28, 32), 10, 0, 10);
      AddMany(Range(48, 60), 10, 8, 10);
      AddMany(Range(60, 64), 10, 0, 11);
      AddMany(Range(32, 48), 10, 9, 12);
      AddMany(Executables(), 12, 0, 12);
      Add(127, 12, 0, 12);
      AddMany(Range(28, 32), 12, 0, 12);
      AddMany(Range(32, 48), 12, 9, 12);
      AddMany(Range(48, 64), 12, 0, 11);
      AddMany(Range(64, 127), 12, 12, 13);
    }

    method AddDcsGroup()
      requires Valid()
      modifies table
      ensures forall s, c | 0 <= s < STATES && 0 <= c < 256 :: Get(s, c) == DcsGroup(s, c, old(Get(s, c)))
    {
      AddMany(Range(64, 127), 10, 12, 13);
      AddMany(Range(64, 127), 9, 12, 13);
      AddMany(Executables(), 13, 13, 13);
      AddMany(Printables(), 13, 13, 13);
      Add(127, 13, 0, 13);
      AddMany([27, 156, 24, 26], 13, 14, 0);
    }

    method AddGroup6()
      requires Valid()
      modifies table
      ensures forall s, c | 0 <= s < STATES && 0 <= c < 256 :: Get(s, c) == Group6(s, c, old(Get(s, c)))
    {
      AddDcsGroup();
      Add(160, 0, 2, 0);
      Add(160, 8, 5, 8);
      Add(160, 6, 0, 6);
      Add(160, 11, 0, 11);
      Add(160, 13, 13, 13);
    }

    /** `VT500_TRANSITION_TABLE`, which nothing changes once it is made. */
    static method VT500() returns (elements: seq<nat>)
      ensures IsVT500(elements)
    {
      var t := Build();
      elements := t.table[..];
      forall s, c | 0 <= s < STATES && 0 <= c < 256
        ensures Element(elements, s, c) == Packed(Entry(s, c))
      {
        assert t.Get(s, c) == Packed(Entry(s, c));
      }
    }

    static method Build() returns (t: Table)
      ensures t.Valid() && fresh(t) && fresh(t.table)
      ensures forall s, c | 0 <= s < STATES && 0 <= c < 256 :: t.Get(s, c) == Packed(Entry(s, c))
    {
      t := new Table(4095);
      t.SetDefault(1, 0);
      t.AddMany(Printables(), 0, 2, 0);
      for o := 0 to STATES
        invariant forall s, c | 0 <= s < STATES && 0 <= c < 256 ::
                    var d := if s == 0 && IsPrintable(c) then T(2, 0) else T(1, 0);
                    t.Get(s, c) == if s < o then ForEveryState(c, d) else d
      {
        t.AddForState(o);
      }
      t.AddGroup1();
      t.AddGroup2();
      t.AddGroup3();
      t.AddGroup4();
      t.AddGroup5();
      t.AddGroup6();
      forall s, c | 0 <= s < STATES && 0 <= c < 256
        ensures t.Get(s, c) == Packed(Entry(s, c))
      {
        AssignedIsEntry(s, c);
      }
    }
  }
}
