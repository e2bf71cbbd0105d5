/** Which texts are read as which cell, part by part; any other text is refused
    (crates/borg-core/src/parse.rs, `cell_ref`). */
module CellSpelling {
  import opened Core
  import opened CellText
  import B = BigInt
  import P = PidText

  // --- The parts of an address ---

  // An unsigned 64-bit number in decimal, with a plus or without.
  predicate IsU64(text: string, n: nat) {
    IsNumeral(text, n) || (text != "" && text[0] == '+' && IsNumeral(text[1..], n))
  }

  predicate IsNumeral(text: string, n: nat) {
    text != "" && B.AllDigits(text) && B.Numeral(text) == n < 0x1_0000_0000_0000_0000
  }

  // After a colon a PID in full; after a hash a counter, of the caller's own branch and allocator.
  predicate PidSpells(kind: PidKind, sep: char, id: string, branch: u64, allocator: u32, pid: Pid) {
    if sep == '#' then pid.Allocated? && pid == Allocated(kind, branch, allocator, pid.counter) && IsU64(id, pid.counter)
    else P.Parse(id) == Some(pid)
  }

  // Untyped objects take no field, whatever name they are given.
  predicate ObjectIs(name: string, field: Option<string>, pid: Pid, c: CellRef) {
    && c.key == Whole(pid)
    && if pid.kind == AnyObject then field.None? && c.buffer == AnyObjectBuffer
       else c.buffer == if field.Some? then ObjectProp(name, field.value) else ObjectBuffer(name)
  }

  predicate ListIs(element: string, key: CellKey, c: CellRef) {
    && c.key == key
    && c.buffer == if key.pid.kind == AnyArray then AnyArrayBuffer else if key.Elem? then ListElem(element) else ListBuffer(element)
  }

  predicate WholeSpells(element: string, sep: char, id: string, branch: u64, allocator: u32, c: CellRef) {
    Free(id, "[") && PidSpells(List, sep, id, branch, allocator, c.Pid()) && ListIs(element, Whole(c.Pid()), c)
  }

  // An element: the list's id, and its index in brackets.
  predicate ElemSpells(element: string, sep: char, text: string, index: string, branch: u64, allocator: u32, c: CellRef) {
    && Free(text, "[") && PidSpells(List, sep, text, branch, allocator, c.Pid())
    && c.key.Elem? && IsU64(index, c.key.index) && ListIs(element, c.key, c)
  }

  ghost predicate ListSpells(element: string, sep: char, id: string, branch: u64, allocator: u32, c: CellRef) {
    || WholeSpells(element, sep, id, branch, allocator, c)
    || exists text, index :: id == text + ("[" + index + "]") && ElemSpells(element, sep, text, index, branch, allocator, c)
  }

  // A list where the name ends in brackets, and then no field.
  ghost predicate PartsSpell(name: string, sep: char, id: string, field: Option<string>, branch: u64, allocator: u32, c: CellRef) {
    if EndsWith(name, "[]") then name != "[]" && field.None? && ListSpells(name[..|name| - 2], sep, id, branch, allocator, c)
    else name != "" && PidSpells(Object, sep, id, branch, allocator, c.Pid()) && ObjectIs(name, field, c.Pid(), c)
  }

  ghost predicate SplitsSo(head: string, name: string, sep: char, id: string, field: Option<string>, branch: u64, allocator: u32, c: CellRef) {
    head == name + ([sep] + id) && Free(name, ":#") && sep in ":#" && PartsSpell(name, sep, id, field, branch, allocator, c)
  }

  ghost predicate HeadSpells(head: string, field: Option<string>, branch: u64, allocator: u32, c: CellRef) {
    exists name, sep, id :: SplitsSo(head, name, sep, id, field, branch, allocator, c)
  }

  ghost predicate FieldSpells(input: string, head: string, field: string, branch: u64, allocator: u32, c: CellRef) {
    input == head + ("." + field) && Free(head, ".") && field != "" && HeadSpells(head, Some(field), branch, allocator, c)
  }

  // A name, a separator and an id, and after the first dot a field.
  ghost predicate Spells(input: string, branch: u64, allocator: u32, c: CellRef) {
    || (Free(input, ".") && HeadSpells(input, None, branch, allocator, c))
    || exists head, field :: FieldSpells(input, head, field, branch, allocator, c)
  }

  // --- Each part is read so ---

  lemma {:induction false} IndexFinds(s: string, any: string)
    ensures var n := IndexOf(s, any); n <= |s| && Free(s[..n], any) && (n < |s| ==> s[n] in any)
  {
    if s != "" && s[0] !in any {
      IndexFinds(s[1..], any);
      var n := IndexOf(s[1..], any);
      assert s[..n + 1] == [s[0]] + s[1..][..n];
    }
  }

  lemma U64When(text: string, n: nat)
    ensures ReadU64(text) == Some(n) <==> IsU64(text, n)
  {
    hide B.Numeral;
    if text != "" && text[0] == '+' {
      assert !B.IsDigit(text[0]);
    }
  }

  lemma PidWhen(kind: PidKind, sep: char, id: string, branch: u64, allocator: u32, pid: Pid)
    requires sep in ":#"
    ensures ReadPid(kind, id, sep == '#', branch, allocator) == Some(pid) <==> PidSpells(kind, sep, id, branch, allocator, pid)
  {
    hide ReadU64, IsU64, P.Parse;
    if pid.Allocated? {
      U64When(id, pid.counter);
    }
    if ReadU64(id).Some? {
      U64When(id, ReadU64(id).value);
    }
  }

  lemma HasABracket(text: string, rest: string)
    ensures !Free(text + ("[" + rest), "[")
  {
    assert (text + ("[" + rest))[|text|] in "[";
  }

  lemma WholeWhen(element: string, sep: char, id: string, branch: u64, allocator: u32, c: CellRef)
    requires sep in ":#" && Free(id, "[")
    ensures var read := ReadListId(id, sep == '#', branch, allocator);
            read.Some? && ListCell(element, read.value) == Some(c) <==> ListSpells(element, sep, id, branch, allocator, c)
  {
    hide ReadPid, PidSpells, IsU64, Free;
    IndexIs(id, "", "[");
    assert id + "" == id;
    PidWhen(List, sep, id, branch, allocator, c.Pid());
    forall text: string, index: string
      ensures id != text + ("[" + index + "]")
    {
      HasABracket(text, index + "]");
      assert "[" + index + "]" == "[" + (index + "]");
    }
  }

  lemma ElemPart(element: string, sep: char, text: string, index: string, branch: u64, allocator: u32, c: CellRef)
    requires sep in ":#" && Free(text, "[")
    ensures var read := ReadListId(text + ("[" + index + "]"), sep == '#', branch, allocator);
            read.Some? && ListCell(element, read.value) == Some(c) <==> ElemSpells(element, sep, text, index, branch, allocator, c)
  {
    hide ReadPid, PidSpells, IsU64, ReadU64, Free;
    var id := text + ("[" + index + "]");
    IndexIs(text, "[" + index + "]", "[");
    var bracketed := id[|text| + 1..];
    assert id[..|text|] == text && bracketed == index + "]" && bracketed[..|bracketed| - 1] == index;
    PidWhen(List, sep, text, branch, allocator, c.Pid());
    IndexIsU64(index, c);
    if ReadU64(index).Some? {
      U64When(index, ReadU64(index).value);
    }
    U64IsSmall(index);
  }

  lemma U64IsSmall(index: string)
    ensures ReadU64(index).Some? ==> ReadU64(index).value < P.U64_LIMIT
  {
  }

  lemma OneBracket(text: string, index: string, text': string, rest: string)
    requires Free(text, "[") && Free(text', "[") && text + ("[" + index + "]") == text' + ("[" + rest)
    ensures text == text' && rest == index + "]"
  {
    IndexIs(text, "[" + index + "]", "[");
    IndexIs(text', "[" + rest, "[");
    var id := text + ("[" + index + "]");
    assert id[..|text|] == text && id[..|text'|] == text' && id[|text| + 1..] == index + "]" && id[|text'| + 1..] == rest;
  }

  lemma ElemWhen(element: string, sep: char, text: string, rest: string, branch: u64, allocator: u32, c: CellRef)
    requires sep in ":#" && Free(text, "[")
    ensures var id := text + ("[" + rest); var read := ReadListId(id, sep == '#', branch, allocator);
            read.Some? && ListCell(element, read.value) == Some(c) <==> ListSpells(element, sep, id, branch, allocator, c)
  {
    hide ReadPid, PidSpells, IsU64, ReadU64, Free, ListCell, ListIs;
    var id := text + ("[" + rest);
    HasABracket(text, rest);
    forall text': string, index': string | id == text' + ("[" + index' + "]") && Free(text', "[")
      ensures text' == text && rest == index' + "]"
    {
      OneBracket(text', index', text, rest);
    }
    if EndsWith(rest, "]") {
      var index := rest[..|rest| - 1];
      assert rest == index + "]" && "[" + index + "]" == "[" + rest;
      ElemPart(element, sep, text, index, branch, allocator, c);
      assert forall index' :: rest == index' + "]" ==> index' == index;
    } else {
      IndexIs(text, "[" + rest, "[");
      assert id[|text| + 1..] == rest;
      assert forall index' :: rest != index' + "]";
    }
  }

  lemma IndexIsU64(index: string, c: CellRef)
    ensures c.key.Elem? ==> (ReadU64(index) == Some(c.key.index as nat) <==> IsU64(index, c.key.index))
  {
    if c.key.Elem? {
      U64When(index, c.key.index);
    }
  }

  lemma PartsWhen(name: string, sep: char, id: string, field: Option<string>, branch: u64, allocator: u32, c: CellRef)
    requires sep in ":#"
    ensures ReadParts(name, sep == '#', id, field, branch, allocator) == Some(c) <==>
            PartsSpell(name, sep, id, field, branch, allocator, c)
  {
    hide ReadPid, PidSpells, ReadListId, ListCell, ListSpells;
    if EndsWith(name, "[]") {
      var element := name[..|name| - 2];
      assert element == "" <==> name == "[]";
      IndexFinds(id, "[");
      var at := IndexOf(id, "[");
      if at < |id| {
        assert id == id[..at] + ("[" + id[at + 1..]);
        ElemWhen(element, sep, id[..at], id[at + 1..], branch, allocator, c);
      } else {
        assert id[..at] == id;
        WholeWhen(element, sep, id, branch, allocator, c);
      }
    } else {
      PidWhen(Object, sep, id, branch, allocator, c.Pid());
    }
  }

  lemma HeadWhen(head: string, field: Option<string>, branch: u64, allocator: u32, c: CellRef)
    ensures ReadHead(head, field, branch, allocator) == Some(c) <==> HeadSpells(head, field, branch, allocator, c)
  {
    hide ReadParts, PartsSpell, Free;
    IndexFinds(head, ":#");
    var at := IndexOf(head, ":#");
    if at < |head| {
      PartsWhen(head[..at], head[at], head[at + 1..], field, branch, allocator, c);
      assert head == head[..at] + ([head[at]] + head[at + 1..]);
      if ReadHead(head, field, branch, allocator) == Some(c) {
        assert SplitsSo(head, head[..at], head[at], head[at + 1..], field, branch, allocator, c);
      }
    }
    if name, sep, id :| SplitsSo(head, name, sep, id, field, branch, allocator, c) {
      SplitHead(name, sep, id, field, branch, allocator);
      PartsWhen(name, sep, id, field, branch, allocator, c);
    }
  }

  // Exactly the texts that spell a cell are read as it, and any other is refused.
  lemma ReadsWhen(input: string, branch: u64, allocator: u32, c: CellRef)
    ensures Read(input, branch, allocator) == Some(c) <==> Spells(input, branch, allocator, c)
  {
    hide ReadHead, HeadSpells, Free;
    IndexFinds(input, ".");
    var dot := IndexOf(input, ".");
    if dot < |input| {
      var head, field := input[..dot], input[dot + 1..];
      assert input == head + ("." + field);
      HeadWhen(head, Some(field), branch, allocator, c);
      if Read(input, branch, allocator) == Some(c) {
        assert FieldSpells(input, head, field, branch, allocator, c);
      }
      HasADot(input, dot);
    } else {
      assert input[..dot] == input;
      HeadWhen(input, None, branch, allocator, c);
    }
    if head, field :| FieldSpells(input, head, field, branch, allocator, c) {
      SplitField(head, field, branch, allocator);
      HeadWhen(head, Some(field), branch, allocator, c);
    }
  }

  lemma HasADot(input: string, dot: nat)
    requires dot < |input| && input[dot] in "."
    ensures !Free(input, ".")
  {
  }
}
