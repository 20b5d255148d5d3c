/**
 thread_test/create_test.c: one writer and one reader share a ring of `size` bytes without a lock.  A zero
 byte marks a free cell; each side keeps its own index; nothing stops the writer from overrunning the
 reader.  Reader steps are the test, the print (which reads the cell again) and the clear.
 */
module Ring {
  import opened Runs
  import opened Seqs

  datatype Pc = AtTest | Asleep | AtPrint | AtClear

  /** `Fetch(c)` hands the writer the character `(char)fgetc(stdin)`, which is 255 at the end of input. */
  datatype Action = Fetch(c: nat) | Store | Read

  /** The program's state is cells, w, r, hand and pc.  The rest is history, which decides neither whether a step
      happens nor what it does to these five: everything fetched, stored and
      printed; for each cell which stored character it holds; the numbers of the characters printed and lost
      (overwritten or cleared before they were printed); how many clears were made; whether some store was made
      while `size` stored characters were not yet cleared; and whether some print was made while there were
      more than `size` of them. */
  datatype State = State(cells: seq<nat>, w: nat, r: nat, hand: Option<nat>, pc: Pc,
                         input: seq<nat>, stored: seq<nat>, out: seq<nat>,
                         tags: seq<Option<nat>>, printed: seq<nat>, lost: seq<nat>,
                         cleared: nat, overran: bool, late: bool)

  function Init(size: nat): State
  {
    State(seq(size, _ => 0), 0, 0, None, AtTest, [], [], [], seq(size, _ => None), [], [], 0, false, false)
  }

  const NEWLINE := 10

  predicate Kept(c: nat) { c != 0 && c != NEWLINE }

  function Wrap(i: nat, size: nat): nat { if i >= size then 0 else i }

  /** The number of the character in cell `p`, if there is one. */
  function TagAt(s: State, p: nat): seq<nat>
  {
    if p < |s.tags| && s.tags[p].Some? then [s.tags[p].value] else []
  }

  /** The same, if the character was not printed. */
  function Unprinted(s: State, p: nat): seq<nat>
  {
    if p < |s.tags| && s.tags[p].Some? && s.tags[p].value !in s.printed then [s.tags[p].value] else []
  }

  function SetTag(tags: seq<Option<nat>>, p: nat, x: Option<nat>): seq<Option<nat>>
  {
    if p < |tags| then tags[p := x] else tags
  }

  function Next(size: nat, s: State, a: Action): Option<State>
  {
    if |s.cells| != size || s.w >= size || s.r >= size then None
    else match a
         case Fetch(c) =>
           if s.hand.Some? then None
           else Some(s.(input := s.input + [c], hand := if Kept(c) then Some(c) else None))
         case Store =>
           if s.hand.None? then None
           else Some(s.(cells := s.cells[s.w := s.hand.value], w := Wrap(s.w + 1, size), hand := None,
                        stored := s.stored + [s.hand.value], tags := SetTag(s.tags, s.w, Some(|s.stored|)),
                        lost := s.lost + Unprinted(s, s.w),
                        overran := s.overran || |s.stored| >= s.cleared + size))
         case Read =>
           match s.pc
           case AtTest => Some(s.(pc := if s.cells[s.r] != 0 then AtPrint else Asleep))
           case Asleep => Some(s.(pc := AtTest))
           case AtPrint =>
             Some(s.(pc := AtClear, out := s.out + [s.cells[s.r]],
                     printed := s.printed + TagAt(s, s.r),
                     late := s.late || |s.stored| > s.cleared + size))
           case AtClear =>
             Some(s.(pc := AtTest, cells := s.cells[s.r := 0], r := Wrap(s.r + 1, size),
                     tags := SetTag(s.tags, s.r, None), lost := s.lost + Unprinted(s, s.r), cleared := s.cleared + 1))
  }

  function Sys(size: nat): (State, Action) -> Option<State>
  {
    (s, a) => Next(size, s, a)
  }

  /** The input without NULs and newlines. */
  function Filter(input: seq<nat>): seq<nat>
  {
    if input == [] then []
    else Filter(input[..|input| - 1]) + if Kept(input[|input| - 1]) then [input[|input| - 1]] else []
  }

  // ----- Every stored character has one fate, however fast the writer is

  /** The characters in cells and not printed. */
  ghost function Waiting(s: State): set<nat>
  {
    set k: nat | k < |s.stored| && Some(k) in s.tags && k !in s.printed
  }

  /** A free cell is zero; a full one holds a stored character that is not lost, and not printed either
      unless the reader is about to clear it. */
  ghost predicate CellOk(s: State, p: nat)
    requires p < |s.cells| == |s.tags|
  {
    match s.tags[p]
    case None => s.cells[p] == 0
    case Some(k) => k < |s.stored| && s.cells[p] == s.stored[k] != 0 && k !in s.lost
                    && (k in s.printed ==> p == s.r && s.pc.AtClear?)
  }

  ghost predicate CellInv(size: nat, s: State)
  {
    && |s.cells| == size == |s.tags| && s.w < size && s.r < size
    && (forall p :: 0 <= p < size ==> CellOk(s, p))
    && (forall p, q :: 0 <= p < q < size && s.tags[p].Some? ==> s.tags[p] != s.tags[q])
    && (s.hand.Some? ==> s.hand.value != 0)
    && (s.pc.AtPrint? || s.pc.AtClear? ==> s.tags[s.r].Some?)
  }

  ghost predicate FateInv(s: State)
  {
    && Distinct(s.printed) && Distinct(s.lost)
    && (forall i :: 0 <= i < |s.printed| ==> s.printed[i] < |s.stored| && s.printed[i] !in s.lost)
    && (forall i :: 0 <= i < |s.lost| ==> s.lost[i] < |s.stored|)
    && (forall k: nat :: k < |s.stored| ==> k in s.printed || k in s.lost || Some(k) in s.tags)
    && |s.out| == |s.printed|
    && (forall i :: 0 <= i < |s.out| ==> s.out[i] == s.stored[s.printed[i]])
    && Filter(s.input) == s.stored + if s.hand.Some? then [s.hand.value] else []
  }

  /** A tag that leaves a cell leaves the ring. */
  lemma TagReplaced(s: State, p: nat, x: Option<nat>)
    requires p < |s.tags|
    ensures forall y :: y in s.tags[p := x] ==> y in s.tags || y == x
    ensures x in s.tags[p := x]
    ensures forall y :: y in s.tags && y != s.tags[p] ==> y in s.tags[p := x]
  {
    var t := s.tags[p := x];
    assert t[p] == x;
    forall y | y in s.tags && y != s.tags[p] ensures y in t {
      var q :| 0 <= q < |s.tags| && s.tags[q] == y;
      assert t[q] == y;
    }
  }

  lemma StoreKeepsCells(size: nat, s: State)
    requires CellInv(size, s) && FateInv(s) && Next(size, s, Store).Some?
    ensures CellInv(size, Next(size, s, Store).value)
  {
    var t := Next(size, s, Store).value;
    forall p | 0 <= p < size ensures CellOk(t, p) {
      assert CellOk(s, p) && CellOk(s, s.w);
    }
    forall p, q | 0 <= p < q < size && t.tags[p].Some? ensures t.tags[p] != t.tags[q] {
      assert CellOk(s, p) && CellOk(s, q);
    }
  }

  lemma ClearKeepsCells(size: nat, s: State)
    requires CellInv(size, s) && FateInv(s) && s.pc.AtClear?
    ensures CellInv(size, Next(size, s, Read).value)
  {
    var t := Next(size, s, Read).value;
    assert t.cells == s.cells[s.r := 0] && t.tags == s.tags[s.r := None];
    forall p | 0 <= p < size ensures CellOk(t, p) {
      assert CellOk(s, p) && CellOk(s, s.r);
    }
  }

  lemma PrintKeepsCells(size: nat, s: State)
    requires CellInv(size, s) && FateInv(s) && s.pc.AtPrint?
    ensures CellInv(size, Next(size, s, Read).value)
  {
    var t := Next(size, s, Read).value;
    assert t.cells == s.cells && t.tags == s.tags;
    forall p | 0 <= p < size ensures CellOk(t, p) {
      assert CellOk(s, p) && CellOk(s, s.r);
    }
  }

  lemma ReadKeepsCells(size: nat, s: State)
    requires CellInv(size, s) && FateInv(s) && Next(size, s, Read).Some?
    ensures CellInv(size, Next(size, s, Read).value)
  {
    if s.pc.AtClear? {
      ClearKeepsCells(size, s);
    } else if s.pc.AtPrint? {
      PrintKeepsCells(size, s);
    } else {
      var t := Next(size, s, Read).value;
      assert CellOk(s, s.r);
      forall p | 0 <= p < size ensures CellOk(t, p) {
        assert CellOk(s, p);
      }
    }
  }

  lemma FetchKeepsCells(size: nat, s: State, c: nat)
    requires CellInv(size, s) && FateInv(s) && Next(size, s, Fetch(c)).Some?
    ensures CellInv(size, Next(size, s, Fetch(c)).value)
  {
    var t := Next(size, s, Fetch(c)).value;
    forall p | 0 <= p < size ensures CellOk(t, p) {
      assert CellOk(s, p);
    }
  }

  /** Where the unprinted character of cell `p` goes when the cell is given away. */
  lemma FateOfCell(size: nat, s: State, p: nat)
    requires CellInv(size, s) && FateInv(s) && p < size
    ensures var lost := s.lost + Unprinted(s, p);
            && Distinct(lost)
            && (forall i :: 0 <= i < |s.printed| ==> s.printed[i] !in lost)
            && (forall i :: 0 <= i < |lost| ==> lost[i] < |s.stored|)
            && (s.tags[p].Some? ==> s.tags[p].value in s.printed || s.tags[p].value in lost)
  {
    assert CellOk(s, p);
    if s.tags[p].Some? && s.tags[p].value !in s.printed {
      DistinctSnoc(s.lost, s.tags[p].value);
      assert forall i :: 0 <= i < |s.printed| ==> s.printed[i] in s.printed;
    }
  }

  lemma StoreKeepsFates(size: nat, s: State)
    requires CellInv(size, s) && FateInv(s) && Next(size, s, Store).Some?
    ensures FateInv(Next(size, s, Store).value)
  {
    var t := Next(size, s, Store).value;
    TagReplaced(s, s.w, Some(|s.stored|));
    FateOfCell(size, s, s.w);
    forall k: nat | k < |t.stored| ensures k in t.printed || k in t.lost || Some(k) in t.tags {
    }
  }

  lemma ClearKeepsFates(size: nat, s: State)
    requires CellInv(size, s) && FateInv(s) && Next(size, s, Read).Some? && s.pc.AtClear?
    ensures FateInv(Next(size, s, Read).value)
  {
    var t := Next(size, s, Read).value;
    TagReplaced(s, s.r, None);
    FateOfCell(size, s, s.r);
    forall k: nat | k < |t.stored| ensures k in t.printed || k in t.lost || Some(k) in t.tags {
    }
  }

  lemma PrintKeepsFates(size: nat, s: State)
    requires CellInv(size, s) && FateInv(s) && Next(size, s, Read).Some? && s.pc.AtPrint?
    ensures FateInv(Next(size, s, Read).value)
  {
    var t := Next(size, s, Read).value;
    assert CellOk(s, s.r);
    DistinctSnoc(s.printed, s.tags[s.r].value);
  }

  lemma StepKeepsInv(size: nat, s: State, a: Action)
    requires CellInv(size, s) && FateInv(s) && Next(size, s, a).Some?
    ensures CellInv(size, Next(size, s, a).value) && FateInv(Next(size, s, a).value)
  {
    match a {
      case Fetch(c) =>
        FetchKeepsCells(size, s, c);
        assert (s.input + [c])[..|s.input|] == s.input;
      case Store =>
        StoreKeepsCells(size, s);
        StoreKeepsFates(size, s);
      case Read =>
        ReadKeepsCells(size, s);
        if s.pc.AtPrint? {
          PrintKeepsFates(size, s);
        } else if s.pc.AtClear? {
          ClearKeepsFates(size, s);
        }
    }
  }

  lemma InitHolds(size: nat)
    requires size >= 1
    ensures CellInv(size, Init(size)) && FateInv(Init(size))
    ensures IndexInv(size, Init(size)) && PaceInv(size, Init(size))
  {
  }

  lemma Reachable(size: nat)
    requires size >= 1
    ensures Always(Sys(size), Init(size),
                   s => CellInv(size, s) && FateInv(s) && IndexInv(size, s) && PaceInv(size, s))
  {
    var inv := t => CellInv(size, t) && FateInv(t) && IndexInv(size, t) && PaceInv(size, t);
    forall t, a | inv(t) && Sys(size)(t, a).Some? ensures inv(Sys(size)(t, a).value) {
      StepKeepsInv(size, t, a);
      StepKeepsIndex(size, t, a);
      StepKeepsPace(size, t, a);
    }
    Invariant(Sys(size), inv, Init(size));
  }

  /** The three fates are apart and together they are everything that was stored. */
  lemma FatesPartition(size: nat, s: State)
    requires CellInv(size, s) && FateInv(s)
    ensures Elements(s.printed) !! Elements(s.lost) !! Waiting(s)
    ensures Elements(s.printed) + Elements(s.lost) + Waiting(s) == Below(|s.stored|)
  {
    forall k | k in Waiting(s) ensures k !in s.lost {
      var p :| 0 <= p < size && s.tags[p] == Some(k);
      assert CellOk(s, p);
    }
    forall k: nat ensures k in Elements(s.printed) + Elements(s.lost) + Waiting(s) <==> k in Below(|s.stored|) {
    }
  }

  lemma ThreeSizes(a: set<nat>, b: set<nat>, c: set<nat>)
    requires a !! b !! c
    ensures |a + b + c| == |a| + |b| + |c|
  {
    assert |a + b| == |a| + |b|;
  }

  /** Conservation, overrun or not: nothing is printed twice, nothing is printed that was not stored, and
      every stored character is printed, lost, or still waiting in a cell - exactly one of the three. */
  lemma Conservation(size: nat, s: State)
    requires size >= 1 && Reaches(Sys(size), Init(size), s)
    ensures Distinct(s.printed) && |s.out| == |s.printed|
    ensures forall i :: 0 <= i < |s.out| ==> s.printed[i] < |s.stored| && s.out[i] == s.stored[s.printed[i]]
    ensures Elements(s.printed) !! Elements(s.lost) !! Waiting(s)
    ensures Elements(s.printed) + Elements(s.lost) + Waiting(s) == Below(|s.stored|)
    ensures |s.stored| == |s.printed| + |s.lost| + |Waiting(s)|
  {
    Reachable(size);
    FatesPartition(size, s);
    DistinctSize(s.printed);
    DistinctSize(s.lost);
    ThreeSizes(Elements(s.printed), Elements(s.lost), Waiting(s));
  }

  // ----- Which character is in which cell, and which one is printed

  lemma Turns(d: int, size: nat)
    ensures d >= 1 ==> d * size >= size
    ensures d <= -1 ==> d * size <= 0 - size
  {
  }

  lemma ModUnique(a: nat, q: nat, m: nat, size: nat)
    requires m < size && a == q * size + m
    ensures a % size == m
  {
    var d := a / size - q;
    assert d * size == m - a % size;
    Turns(d, size);
  }

  lemma ModStep(a: nat, size: nat)
    requires size >= 1
    ensures (a + 1) % size == Wrap(a % size + 1, size)
  {
    var q, m := a / size, a % size;
    assert a == q * size + m;
    if m + 1 < size {
      ModUnique(a + 1, q, m + 1, size);
    } else {
      assert a + 1 == (q + 1) * size + 0;
      ModUnique(a + 1, q + 1, 0, size);
    }
  }

  /** Two numbers less than a turn apart are at different cells. */
  lemma ModApart(a: nat, b: nat, size: nat)
    requires a < b < a + size
    ensures a % size != b % size
  {
    var d := b / size - a / size;
    assert d * size == b - a - (b % size - a % size);
    Turns(d, size);
  }

  lemma ModTurn(a: nat, size: nat)
    requires size >= 1
    ensures (a + size) % size == a % size
  {
    assert a + size == (a / size + 1) * size + a % size;
    ModUnique(a + size, a / size + 1, a % size, size);
  }

  /** The i-th character printed is the i-th stored, for all i. */
  ghost predicate InOrder(s: State)
  {
    forall i :: 0 <= i < |s.printed| ==> s.printed[i] == i
  }

  /** The character in cell `p` is one of the last `size` stored, not one already cleared, and it is at its place. */
  ghost predicate TagOk(size: nat, s: State, p: nat)
    requires size >= 1 && p < |s.tags| && s.tags[p].Some?
  {
    var k := s.tags[p].value;
    s.cleared <= k < |s.stored| <= k + size && k % size == p
  }

  /** Overrun or not: both indices follow their counts, and the order is lost with the first late print. */
  ghost predicate IndexInv(size: nat, s: State)
  {
    && size >= 1 && |s.tags| == size && s.cleared <= |s.stored|
    && s.w == |s.stored| % size && s.r == s.cleared % size
    && (forall p :: 0 <= p < size && s.tags[p].Some? ==> TagOk(size, s, p))
    && |s.printed| == s.cleared + (if s.pc.AtClear? then 1 else 0)
    && (s.late <==> !InOrder(s))
  }

  lemma StoreKeepsIndex(size: nat, s: State)
    requires CellInv(size, s) && IndexInv(size, s) && Next(size, s, Store).Some?
    ensures IndexInv(size, Next(size, s, Store).value)
  {
    var t := Next(size, s, Store).value;
    assert t.w == |t.stored| % size by { ModStep(|s.stored|, size); }
    forall p | 0 <= p < size && t.tags[p].Some? ensures TagOk(size, t, p) {
      if p != s.w {
        assert TagOk(size, s, p);
        ModTurn(s.tags[p].value, size);
      }
    }
  }

  lemma ClearKeepsIndex(size: nat, s: State)
    requires CellInv(size, s) && IndexInv(size, s) && s.pc.AtClear? && Next(size, s, Read).Some?
    ensures IndexInv(size, Next(size, s, Read).value)
  {
    var t := Next(size, s, Read).value;
    assert TagOk(size, s, s.r);
    assert t.r == t.cleared % size by { ModStep(s.cleared, size); }
    forall p | 0 <= p < size && t.tags[p].Some? ensures TagOk(size, t, p) {
      assert TagOk(size, s, p);
    }
  }

  /** The character at the reader's cell is the next one in order exactly when at most `size` are uncleared. */
  lemma HeadIfNotLate(size: nat, s: State)
    requires IndexInv(size, s) && s.r < size && s.tags[s.r].Some?
    ensures s.tags[s.r].value == s.cleared <==> |s.stored| <= s.cleared + size
  {
    assert TagOk(size, s, s.r);
    var k := s.tags[s.r].value;
    if s.cleared < k < s.cleared + size {
      ModApart(s.cleared, k, size);
    }
  }

  lemma PrintKeepsIndex(size: nat, s: State)
    requires CellInv(size, s) && IndexInv(size, s) && s.pc.AtPrint? && Next(size, s, Read).Some?
    ensures IndexInv(size, Next(size, s, Read).value)
  {
    var t := Next(size, s, Read).value;
    HeadIfNotLate(size, s);
    var k := s.tags[s.r].value;
    assert t.printed == s.printed + [k] && t.printed[s.cleared] == k;
    forall p | 0 <= p < size && t.tags[p].Some? ensures TagOk(size, t, p) {
      assert TagOk(size, s, p);
    }
    assert InOrder(t) ==> forall i :: 0 <= i < |s.printed| ==> s.printed[i] == t.printed[i] == i;
  }

  lemma StepKeepsIndex(size: nat, s: State, a: Action)
    requires CellInv(size, s) && IndexInv(size, s) && Next(size, s, a).Some?
    ensures IndexInv(size, Next(size, s, a).value)
  {
    if a.Store? {
      StoreKeepsIndex(size, s);
    } else if a.Read? && s.pc.AtClear? {
      ClearKeepsIndex(size, s);
    } else if a.Read? && s.pc.AtPrint? {
      PrintKeepsIndex(size, s);
    } else {
      var t := Next(size, s, a).value;
      forall p | 0 <= p < size && t.tags[p].Some? ensures TagOk(size, t, p) {
        assert TagOk(size, s, p);
      }
    }
  }

  /** Of two numbers at the same cell, the distance is a whole number of turns. */
  lemma ModSame(a: nat, b: nat, m: nat, size: nat)
    requires size >= 1 && a <= b && a % size == b % size && m < size
    ensures (b - a + m) % size == m
  {
    var q := b / size - a / size;
    assert b - a == q * size;
    assert b - a + m == q * size + m;
    Turns(q, size);
    ModUnique(b - a + m, q, m, size);
  }

  lemma HeadIsTheLatest(size: nat, s: State)
    requires IndexInv(size, s) && s.r < size && s.tags[s.r].Some?
    ensures s.cleared < |s.stored|
    ensures s.tags[s.r].value == |s.stored| - 1 - (|s.stored| - 1 - s.cleared) % size
  {
    assert TagOk(size, s, s.r);
    var k := s.tags[s.r].value;
    ModSame(s.cleared, k, |s.stored| - 1 - k, size);
  }

  /** Every print, overrun or not, shows the last stored of the characters that belong to the reader's cell, and
      that is the next one in order if and only if at most `size` stored characters are not yet cleared. */
  lemma PrintShowsTheLatest(size: nat, s: State)
    requires size >= 1 && Reaches(Sys(size), Init(size), s) && s.pc.AtPrint?
    ensures |s.printed| == s.cleared < |s.stored| && Next(size, s, Read).Some?
    ensures var k := |s.stored| - 1 - (|s.stored| - 1 - s.cleared) % size;
            var t := Next(size, s, Read).value;
            && 0 <= k && t.printed == s.printed + [k] && t.out == s.out + [s.stored[k]]
            && (k == |s.printed| <==> |s.stored| <= s.cleared + size)
  {
    Reachable(size);
    HeadIfNotLate(size, s);
    HeadIsTheLatest(size, s);
    assert CellOk(s, s.r);
  }

  /** The order is kept if and only if no print was made with more than `size` characters uncleared.  Then the
      output is a prefix of the input without NULs and newlines; when the characters stored are all different
      it is one only then. */
  lemma OrderKeptIffNeverLate(size: nat, s: State)
    requires size >= 1 && Reaches(Sys(size), Init(size), s)
    ensures !s.late <==> forall i :: 0 <= i < |s.printed| ==> s.printed[i] == i
    ensures !s.late ==> s.out <= Filter(s.input)
    ensures Distinct(s.stored) ==> (!s.late <==> s.out <= Filter(s.input))
    ensures s.late ==> s.overran
  {
    Reachable(size);
    if s.pc.AtClear? { assert TagOk(size, s, s.r); }
    assert |s.out| <= |s.stored| <= |Filter(s.input)| && s.stored <= Filter(s.input);
    if !s.late {
      assert forall i :: 0 <= i < |s.out| ==> s.out[i] == s.stored[s.printed[i]] == s.stored[i];
    } else if Distinct(s.stored) {
      var i :| 0 <= i < |s.printed| && s.printed[i] != i;
      assert s.out[i] == s.stored[s.printed[i]] && s.stored[i] == Filter(s.input)[i];
    }
  }

  // ----- While the reader keeps pace the ring is a queue

  /** Nothing is lost and nothing is about to be cleared unprinted. */
  ghost predicate Intact(s: State)
  {
    s.lost == [] && (s.pc.AtClear? ==> Unprinted(s, s.r) == [])
  }

  /** The uncleared characters, numbers cleared to |stored| - 1, fill the cyclic window from r to w; exactly the
      characters before them, and the one about to be cleared, are printed. */
  ghost predicate Paced(size: nat, s: State)
    requires size >= 1 && |s.tags| == size
  {
    && s.lost == [] && |s.stored| <= s.cleared + size && InOrder(s)
    && (forall k :: s.cleared <= k < |s.stored| ==> s.tags[k % size] == Some(k))
  }

  ghost predicate PaceInv(size: nat, s: State)
  {
    && size >= 1 && |s.tags| == size
    && if s.overran then !Intact(s) else Paced(size, s)
  }

  lemma StoreKeepsPace(size: nat, s: State)
    requires CellInv(size, s) && FateInv(s) && IndexInv(size, s) && Paced(size, s) && Next(size, s, Store).Some?
    ensures var t := Next(size, s, Store).value;
            if |s.stored| >= s.cleared + size then !Intact(t) else Paced(size, t)
  {
    var t := Next(size, s, Store).value;
    var n := |s.stored|;
    if n < s.cleared + size {
      assert s.tags[s.w].None? by {
        if s.tags[s.w].Some? {
          assert TagOk(size, s, s.w);
          ModApart(s.tags[s.w].value, n, size);
        }
      }
      forall k | t.cleared <= k < |t.stored| ensures t.tags[k % size] == Some(k) {
        if k < n { ModApart(k, n, size); }
      }
    } else {
      ModTurn(s.cleared, size);
      assert s.tags[s.r] == Some(s.cleared) && s.w == s.r;
      assert s.pc.AtClear? ==> t.tags[s.r] == Some(n) && n !in t.printed;
    }
  }

  lemma ClearKeepsPace(size: nat, s: State)
    requires CellInv(size, s) && IndexInv(size, s) && Paced(size, s)
    requires s.pc.AtClear? && Next(size, s, Read).Some?
    ensures Paced(size, Next(size, s, Read).value)
  {
    var t := Next(size, s, Read).value;
    assert TagOk(size, s, s.r);
    assert s.tags[s.r] == Some(s.cleared) && s.printed[s.cleared] == s.cleared;
    assert t.lost == [] && t.tags == s.tags[s.r := None];
    forall k | t.cleared <= k < |t.stored| ensures t.tags[k % size] == Some(k) {
      ModApart(s.cleared, k, size);
    }
  }

  lemma ReadKeepsPace(size: nat, s: State)
    requires CellInv(size, s) && IndexInv(size, s) && Paced(size, s) && Next(size, s, Read).Some?
    ensures Paced(size, Next(size, s, Read).value)
  {
    if s.pc.AtClear? {
      ClearKeepsPace(size, s);
    } else if s.pc.AtPrint? {
      HeadIfNotLate(size, s);
    }
  }

  lemma StepKeepsPace(size: nat, s: State, a: Action)
    requires CellInv(size, s) && FateInv(s) && IndexInv(size, s) && PaceInv(size, s) && Next(size, s, a).Some?
    ensures PaceInv(size, Next(size, s, a).value)
  {
    if !s.overran {
      match a {
        case Fetch(c) =>
        case Store => StoreKeepsPace(size, s);
        case Read => ReadKeepsPace(size, s);
      }
    }
  }

  /** The writer is never a turn ahead if and only if no character is lost or about to be. */
  lemma IntactIffNeverOverran(size: nat, s: State)
    requires size >= 1 && Reaches(Sys(size), Init(size), s)
    ensures !s.overran <==> Intact(s)
  {
    Reachable(size);
    if !s.overran && s.pc.AtClear? {
      assert s.printed[s.cleared] == s.cleared;
    }
  }

  /** One round of the writer: the fetch of `c`, which passes the filter, and its store. */
  lemma WriteOne(size: nat, s: State, c: nat) returns (t: State)
    requires size >= 1 && Kept(c) && Reaches(Sys(size), Init(size), s) && s.hand == None
    ensures Reaches(Sys(size), Init(size), t) && t.hand == None && t.pc == s.pc && t.r == s.r && t.out == s.out
    ensures t.stored == s.stored + [c] && t.cleared == s.cleared
    ensures s.w < |s.cells| && t.cells == s.cells[s.w := c]
    ensures t.overran <==> s.overran || |s.stored| >= s.cleared + size
  {
    Reachable(size);
    var held := s.(input := s.input + [c], hand := Some(c));
    assert Next(size, s, Fetch(c)) == Some(held);
    ReachesStep(Sys(size), Init(size), s, Fetch(c));
    ReachesStep(Sys(size), Init(size), held, Store);
    t := Next(size, held, Store).value;
  }

  /** The writer alone makes `count` rounds of fetch and store with the character `c`. */
  lemma {:induction false} WriteAlone(size: nat, c: nat, count: nat) returns (s: State)
    requires size >= 1 && Kept(c)
    ensures Reaches(Sys(size), Init(size), s) && s.hand == None && s.pc.AtTest?
    ensures |s.stored| == count && s.cleared == 0 && s.r == 0 && s.out == []
    ensures forall i :: 0 <= i < count ==> s.stored[i] == c
    ensures s.overran <==> count > size
  {
    if count == 0 {
      s := Init(size);
      ReachesSelf(Sys(size), s);
    } else {
      var before := WriteAlone(size, c, count - 1);
      s := WriteOne(size, before, c);
    }
  }

  /** Nothing in the program prevents an overrun: for every size some run overruns the reader, and then a
      character is lost. */
  lemma OverrunHappens(size: nat)
    requires size >= 1
    ensures exists s :: Reaches(Sys(size), Init(size), s) && s.overran && !Intact(s)
  {
    var s := WriteAlone(size, 'a' as nat, size + 1);
    IntactIffNeverOverran(size, s);
  }

  /** The reader finds its cell full and prints it. */
  lemma TestAndPrint(size: nat, s: State) returns (t: State)
    requires size >= 1 && Reaches(Sys(size), Init(size), s) && s.pc.AtTest?
    requires s.r < |s.cells| && s.cells[s.r] != 0
    ensures Reaches(Sys(size), Init(size), t) && t.out == s.out + [s.cells[s.r]] && t.stored == s.stored
  {
    Reachable(size);
    var seen := s.(pc := AtPrint);
    assert Next(size, s, Read) == Some(seen);
    ReachesStep(Sys(size), Init(size), s, Read);
    ReachesStep(Sys(size), Init(size), seen, Read);
    t := Next(size, seen, Read).value;
  }

  /** And the order can be lost with it: a run whose first printed character is not the first of the input. */
  lemma OverrunBreaksTheOrder(size: nat)
    requires size >= 1
    ensures exists s :: Reaches(Sys(size), Init(size), s) && s.late && !(s.out <= Filter(s.input))
  {
    var a, b := 'a' as nat, 'b' as nat;
    var full := WriteAlone(size, a, size);
    Reachable(size);
    ModTurn(0, size);
    assert full.w == 0;
    var s := WriteOne(size, full, b);
    var t := TestAndPrint(size, s);
    Reachable(size);
    assert t.out == [b] && Filter(t.input)[0] == t.stored[0] == a;
    OrderKeptIffNeverLate(size, t);
  }

  /** While it was not overrun: the non-zero cells are exactly the cyclic window of the uncleared characters,
      in order, and what was printed is a prefix of the input without NULs and newlines. */
  lemma PacedRingIsFifo(size: nat, s: State)
    requires size >= 1 && Reaches(Sys(size), Init(size), s) && !s.overran
    ensures |s.cells| == size && s.cleared <= |s.stored| <= s.cleared + size
    ensures forall p :: 0 <= p < size ==>
              (s.cells[p] != 0 <==> exists k :: s.cleared <= k < |s.stored| && k % size == p)
    ensures forall k :: s.cleared <= k < |s.stored| ==> s.cells[k % size] == s.stored[k]
    ensures s.r == s.cleared % size && s.w == |s.stored| % size
    ensures s.out <= s.stored <= Filter(s.input)
  {
    Reachable(size);
    forall p | 0 <= p < size
      ensures s.cells[p] != 0 <==> exists k :: s.cleared <= k < |s.stored| && k % size == p
    {
      assert CellOk(s, p);
      if s.cells[p] != 0 {
        assert s.cleared <= s.tags[p].value < |s.stored| && s.tags[p].value % size == p;
      }
    }
    forall k | s.cleared <= k < |s.stored| ensures s.cells[k % size] == s.stored[k] {
      assert CellOk(s, k % size);
    }
  }

  /** The queue a paced ring stands for. */
  function Queue(s: State): seq<nat>
  {
    if s.cleared <= |s.stored| then s.stored[s.cleared..] else []
  }

  /** The reader's cell is the head of the queue, or free when the queue is empty. */
  lemma ReaderIsAtTheHead(size: nat, s: State)
    requires CellInv(size, s) && FateInv(s) && IndexInv(size, s) && Paced(size, s)
    ensures s.cells[s.r] != 0 <==> Queue(s) != []
    ensures Queue(s) != [] ==> s.cells[s.r] == Queue(s)[0]
    ensures s.pc.AtPrint? || s.pc.AtClear? ==> Queue(s) != []
    ensures s.pc.AtClear? ==> s.out != [] && s.out[|s.out| - 1] == Queue(s)[0]
  {
    assert CellOk(s, s.r);
    assert Queue(s) != [] ==> s.tags[s.r] == Some(s.cleared);
    if s.pc.AtClear? {
      assert s.out[s.cleared] == s.stored[s.printed[s.cleared]];
    }
  }

  lemma PacedReads(size: nat, s: State)
    requires CellInv(size, s) && FateInv(s) && IndexInv(size, s) && Paced(size, s) && Next(size, s, Read).Some?
    ensures var t := Next(size, s, Read).value;
            && (s.pc.AtClear? ==> Queue(s) != [] && s.out != [] && Queue(s)[0] == s.out[|s.out| - 1])
            && (s.pc.AtClear? ==> Queue(t) == Queue(s)[1..])
            && (!s.pc.AtClear? ==> Queue(t) == Queue(s))
            && (s.pc.AtPrint? ==> Queue(s) != [] && t.out == s.out + [Queue(s)[0]])
            && (s.pc.AtTest? ==> (t.pc.Asleep? <==> Queue(s) == []))
  {
    ReaderIsAtTheHead(size, s);
  }

  /** Each step is a queue step: a store appends, a clear removes the head, which is the character just
      printed, and nothing else changes the queue; the test finds a free cell exactly when the queue is empty. */
  lemma PacedStepsAreQueueSteps(size: nat, s: State, a: Action)
    requires size >= 1 && Reaches(Sys(size), Init(size), s) && Next(size, s, a).Some?
    requires !Next(size, s, a).value.overran
    ensures var t := Next(size, s, a).value;
            && (a.Store? ==> Queue(t) == Queue(s) + [s.hand.value] && |Queue(t)| <= size)
            && (a.Fetch? ==> Queue(t) == Queue(s))
            && (a.Read? && s.pc.AtClear? ==> Queue(s) != [] && s.out != [] && Queue(s)[0] == s.out[|s.out| - 1])
            && (a.Read? && s.pc.AtClear? ==> Queue(t) == Queue(s)[1..])
            && (a.Read? && !s.pc.AtClear? ==> Queue(t) == Queue(s))
            && (a.Read? && s.pc.AtPrint? ==> Queue(s) != [] && t.out == s.out + [Queue(s)[0]])
            && (a.Read? && s.pc.AtTest? ==> (t.pc.Asleep? <==> Queue(s) == []))
  {
    Reachable(size);
    if a.Read? {
      PacedReads(size, s);
    }
  }

  // ----- What the reader does on its own

  function Reads(n: nat): seq<Action>
  {
    seq(n, _ => Read)
  }

  lemma ReadsFirst(size: nat, s: State, n: nat)
    requires n > 0 && Next(size, s, Read).Some?
    ensures Exec(Sys(size), s, Reads(n)) == Exec(Sys(size), Next(size, s, Read).value, Reads(n - 1))
  {
    assert Reads(n)[1..] == Reads(n - 1);
  }

  /** The reader's steps until the queue is empty and its test finds it so. */
  function Work(s: State): int
  {
    3 * |Queue(s)| + match s.pc case Asleep => 1 case AtTest => 0 case AtPrint => -1 case AtClear => -2
  }

  /** With the queue empty everything stored is printed. */
  lemma EmptyIsPrinted(size: nat, s: State)
    requires size >= 1 && Reaches(Sys(size), Init(size), s) && !s.overran
    ensures Queue(s) == [] ==> s.out == s.stored
    ensures Work(s) <= 0 ==> Queue(s) == []
  {
    Reachable(size);
    ReaderIsAtTheHead(size, s);
    PacedRingIsFifo(size, s);
  }

  lemma ReadWorks(size: nat, s: State) returns (t: State)
    requires size >= 1 && Reaches(Sys(size), Init(size), s) && !s.overran
    ensures Next(size, s, Read) == Some(t) && Reaches(Sys(size), Init(size), t)
    ensures !t.overran && t.stored == s.stored
    ensures if Queue(s) == [] then Queue(t) == [] else Work(t) == Work(s) - 1
  {
    Reachable(size);
    t := Next(size, s, Read).value;
    PacedStepsAreQueueSteps(size, s, Read);
    ReaderIsAtTheHead(size, s);
    ReachesStep(Sys(size), Init(size), s, Read);
  }

  /** Left alone, a reader that was not overrun prints everything that is stored and waits at an empty ring. */
  lemma {:induction false} ReaderDrains(size: nat, s: State, n: nat)
    requires size >= 1 && Reaches(Sys(size), Init(size), s) && !s.overran
    requires Queue(s) == [] || n >= Work(s)
    ensures var e := Exec(Sys(size), s, Reads(n));
            e.Some? && Queue(e.value) == [] && e.value.out == s.stored == e.value.stored
    decreases n
  {
    EmptyIsPrinted(size, s);
    if n > 0 {
      var t := ReadWorks(size, s);
      ReadsFirst(size, s, n);
      ReaderDrains(size, t, n - 1);
    }
  }

  /** Three steps a character and one more are enough. */
  lemma EveryCharacterIsPrinted(size: nat, s: State)
    requires size >= 1 && Reaches(Sys(size), Init(size), s) && !s.overran
    ensures var e := Exec(Sys(size), s, Reads(3 * |Queue(s)| + 1));
            e.Some? && Queue(e.value) == [] && e.value.out == s.stored == e.value.stored
  {
    ReaderDrains(size, s, 3 * |Queue(s)| + 1);
  }

  function StepsToServe(pc: Pc): nat
  {
    match pc case Asleep => 3 case AtTest => 2 case AtPrint | AtClear => 1
  }

  /** Overrun or not, a full cell at the reader is printed within three steps of the reader, or cleared in one if
      it was just printed. */
  lemma {:induction false} FullCellIsServed(size: nat, s: State)
    requires size >= 1 && Reaches(Sys(size), Init(size), s) && s.r < |s.cells| && s.cells[s.r] != 0
    ensures var e := Exec(Sys(size), s, Reads(StepsToServe(s.pc)));
            && e.Some? && |e.value.cells| == |s.cells|
            && if s.pc.AtClear? then e.value == Next(size, s, Read).value && e.value.cells == s.cells[s.r := 0]
               else e.value.out == s.out + [s.cells[s.r]] && e.value.cells == s.cells && e.value.pc.AtClear?
    decreases StepsToServe(s.pc)
  {
    Reachable(size);
    var t := Next(size, s, Read).value;
    ReachesStep(Sys(size), Init(size), s, Read);
    ReadsFirst(size, s, StepsToServe(s.pc));
    if s.pc.AtPrint? || s.pc.AtClear? {
      assert Reads(0) == [];
    } else {
      assert t == s.(pc := if s.pc.Asleep? then AtTest else AtPrint);
      assert StepsToServe(t.pc) == StepsToServe(s.pc) - 1;
      FullCellIsServed(size, t);
    }
  }

  // ----- What a schedule determines

  /** Everything the keyboard gave. */
  function Typed(acts: seq<Action>): seq<nat>
  {
    if acts == [] then []
    else Typed(acts[..|acts| - 1]) + if acts[|acts| - 1].Fetch? then [acts[|acts| - 1].c] else []
  }

  function StoresIn(acts: seq<Action>): nat
  {
    CountIf((a: Action) => a.Store?, acts)
  }

  ghost predicate Follows(size: nat, acts: seq<Action>, s: State)
  {
    s.input == Typed(acts) && |s.stored| == StoresIn(acts)
  }

  lemma RunFollows(size: nat)
    ensures Ties(Sys(size), Init(size), (past, t) => Follows(size, past, t))
  {
    forall past, t, a: Action | Follows(size, past, t) && Sys(size)(t, a).Some?
      ensures Follows(size, past + [a], Sys(size)(t, a).value)
    {
      assert (past + [a])[..|past|] == past;
      CountSnoc((b: Action) => b.Store?, past, a);
    }
    KeepsAlong(Sys(size), (past, t) => Follows(size, past, t), Init(size));
  }

  /** The characters stored are those typed, without NULs and newlines, in order, up to the number of stores; the
      indices follow the numbers of stores and clears; a store can follow exactly a fetch that was kept, a fetch
      can follow anything else, and the reader is never blocked. */
  lemma ScheduleStores(size: nat, acts: seq<Action>, e: State, c: nat)
    requires size >= 1 && Exec(Sys(size), Init(size), acts) == Some(e)
    ensures var kept := Filter(Typed(acts));
            && StoresIn(acts) <= |kept| && e.stored == kept[..StoresIn(acts)]
            && e.w == StoresIn(acts) % size && e.r == e.cleared % size
            && (Exec(Sys(size), Init(size), acts + [Store]).Some? <==> StoresIn(acts) < |kept|)
            && (Exec(Sys(size), Init(size), acts + [Fetch(c)]).Some? <==> StoresIn(acts) == |kept|)
            && Exec(Sys(size), Init(size), acts + [Read]).Some?
  {
    RunFollows(size);
    assert Reaches(Sys(size), Init(size), e);
    Reachable(size);
    ExecSnoc(Sys(size), Init(size), acts, Store);
    ExecSnoc(Sys(size), Init(size), acts, Fetch(c));
    ExecSnoc(Sys(size), Init(size), acts, Read);
  }

  // ----- The buffer in memory

  /** `buf` and the two private indices; `history` holds what the program itself does not keep. */
  class SharedRing {
    const buf: array<nat>
    var inputIndex: nat
    var outputIndex: nat
    var hand: Option<nat>
    var pc: Pc
    ghost var history: State

    ghost function View(): State
      reads this, buf
    {
      history.(cells := buf[..], w := inputIndex, r := outputIndex, hand := hand, pc := pc)
    }

    ghost predicate Valid()
      reads this, buf
    {
      CellInv(buf.Length, View()) && FateInv(View())
    }

    /** main allocates the buffer and zeroes it byte by byte. */
    constructor (size: nat)
      requires size >= 1
      ensures Valid() && View() == Init(size) && fresh(buf) && buf.Length == size
    {
      buf := new nat[size];
      inputIndex, outputIndex, hand, pc := 0, 0, None, AtTest;
      history := Init(size);
      new;
      for i := 0 to size
        invariant forall j :: 0 <= j < i ==> buf[j] == 0
        invariant inputIndex == 0 && outputIndex == 0 && hand == None && pc == AtTest && history == Init(size)
      {
        buf[i] := 0;
      }
      assert buf[..] == Init(size).cells;
      assert View() == Init(size);
      InitHolds(size);
    }

    /** fgetc and the filter. */
    method InputFetch(c: nat) returns (ran: bool)
      requires Valid()
      modifies this
      ensures Valid()
      ensures var next := Next(buf.Length, old(View()), Fetch(c));
              ran == next.Some? && View() == if ran then next.value else old(View())
    {
      ghost var before := View();
      ran := hand.None?;
      if ran {
        if c != 0 && c != NEWLINE {
          hand := Some(c);
        }
        history := Next(buf.Length, before, Fetch(c)).value;
        StepKeepsInv(buf.Length, before, Fetch(c));
      }
    }

    /** buf[i++] = c, and back to the start at the end. */
    method InputStore() returns (ran: bool)
      requires Valid()
      modifies this, buf
      ensures Valid()
      ensures var next := Next(buf.Length, old(View()), Store);
              ran == next.Some? && View() == if ran then next.value else old(View())
    {
      ghost var before := View();
      ran := hand.Some?;
      if ran {
        buf[inputIndex] := hand.value;
        inputIndex := inputIndex + 1;
        if inputIndex >= buf.Length {
          inputIndex := 0;
        }
        hand := None;
        history := Next(buf.Length, before, Store).value;
        StepKeepsInv(buf.Length, before, Store);
      }
    }

    /** The test, the print, the clear, or the end of the sleep. */
    method OutputStep() returns (printed: Option<nat>)
      requires Valid()
      modifies this, buf
      ensures Valid()
      ensures Next(buf.Length, old(View()), Read) == Some(View())
      ensures View().out == old(View()).out + if printed.Some? then [printed.value] else []
    {
      printed := None;
      match pc {
        case AtTest =>
          Test();
        case Asleep =>
          ghost var before := View();
          pc := AtTest;
          history := Next(buf.Length, before, Read).value;
          StepKeepsInv(buf.Length, before, Read);
        case AtPrint =>
          var c := PrintCell();
          printed := Some(c);
        case AtClear =>
          ClearCell();
      }
    }

    method Test()
      requires Valid() && pc.AtTest?
      modifies this
      ensures Valid() && Next(buf.Length, old(View()), Read) == Some(View()) && View().out == old(View()).out
    {
      ghost var before := View();
      pc := if buf[outputIndex] != 0 then AtPrint else Asleep;
      history := Next(buf.Length, before, Read).value;
      StepKeepsInv(buf.Length, before, Read);
    }

    /** fputc reads the cell again. */
    method PrintCell() returns (c: nat)
      requires Valid() && pc.AtPrint?
      modifies this
      ensures Valid() && Next(buf.Length, old(View()), Read) == Some(View())
      ensures View().out == old(View()).out + [c]
    {
      ghost var before := View();
      c := buf[outputIndex];
      pc := AtClear;
      history := Next(buf.Length, before, Read).value;
      StepKeepsInv(buf.Length, before, Read);
    }

    method ClearCell()
      requires Valid() && pc.AtClear?
      modifies this, buf
      ensures Valid() && Next(buf.Length, old(View()), Read) == Some(View()) && View().out == old(View()).out
    {
      ghost var before := View();
      buf[outputIndex] := 0;
      outputIndex := outputIndex + 1;
      if outputIndex >= buf.Length {
        outputIndex := 0;
      }
      pc := AtTest;
      history := Next(buf.Length, before, Read).value;
      StepKeepsInv(buf.Length, before, Read);
    }
  }
}
