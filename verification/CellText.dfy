/** Cell addresses as text: one canonical form out, that form and a shorthand in, each address naming one cell
    and one only (crates/borg-core/src/cell.rs, `Display`; crates/borg-core/src/parse.rs, `cell_ref`). */
module CellText {
  import opened Core
  import B = BigInt
  import P = PidText

  // --- Text ---

  // Where the first of these characters is, or the length.
  function IndexOf(s: string, any: string): nat {
    if s == "" || s[0] in any then 0 else 1 + IndexOf(s[1..], any)
  }

  predicate Free(s: string, any: string) {
    forall k :: 0 <= k < |s| ==> s[k] !in any
  }

  lemma {:induction false} IndexIs(a: string, b: string, any: string)
    requires Free(a, any) && (b != "" ==> b[0] in any)
    ensures IndexOf(a + b, any) == |a|
  {
    if a == "" {
      assert a + b == b;
    } else {
      assert (a + b)[0] == a[0] && (a + b)[1..] == a[1..] + b;
      assert Free(a[1..], any);
      IndexIs(a[1..], b, any);
    }
  }

  predicate EndsWith(s: string, t: string) {
    |t| <= |s| && s[|s| - |t|..] == t
  }

  function Decimal(n: nat): string {
    if n < 10 then ['0' + n as char] else Decimal(n / 10) + ['0' + (n % 10) as char]
  }

  lemma {:induction false} DecimalIs(n: nat)
    ensures B.AllDigits(Decimal(n)) && Decimal(n) != "" && B.Numeral(Decimal(n)) == n
    ensures Decimal(n)[0] == '0' ==> n == 0
  {
    if n < 10 {
      assert Decimal(n)[..0] == [];
    } else {
      DecimalIs(n / 10);
      assert Decimal(n)[..|Decimal(n)| - 1] == Decimal(n / 10);
    }
  }

  // An unsigned 64-bit number, with an optional plus.
  function ReadU64(s: string): Option<nat> {
    var digits := if s != "" && s[0] == '+' then s[1..] else s;
    if digits == "" || !B.AllDigits(digits) || B.Numeral(digits) >= P.U64_LIMIT then None
    else Some(B.Numeral(digits))
  }

  lemma DecimalReadsBack(n: u64)
    ensures ReadU64(Decimal(n)) == Some(n as nat) && Free(Decimal(n), ".:#[]+")
  {
    hide Decimal, B.Numeral, B.AllDigits, Free;
    DecimalIs(n);
    DigitsAreFree(Decimal(n));
  }

  lemma DigitsAreFree(s: string)
    requires B.AllDigits(s)
    ensures Free(s, ".:#[]+") && (s != "" ==> s[0] != '+')
  {
    forall k | 0 <= k < |s|
      ensures s[k] !in ".:#[]+"
    {
      assert B.IsDigit(s[k]);
    }
  }

  // --- Rendering ---

  // The name a buffer wears, and whether it takes brackets. The untyped ones have no name of their own.
  function Address(b: BufferId): (string, bool) {
    match b
    case ObjectBuffer(name) => (name, false)
    case ObjectProp(name, _) => (name, false)
    case ListBuffer(name) => (name, true)
    case ListElem(name) => (name, true)
    case AnyObjectBuffer => ("Any", false)
    case AnyArrayBuffer => ("Any", true)
  }

  function IndexText(key: CellKey): string {
    if key.Elem? then "[" + Decimal(key.index) + "]" else ""
  }

  function FieldText(b: BufferId): string {
    if b.ObjectProp? then "." + b.field else ""
  }

  function Head(c: CellRef): string {
    Address(c.buffer).0 + (if Address(c.buffer).1 then "[]" else "")
  }

  function Render(c: CellRef): string {
    Head(c) + (":" + P.Render(c.Pid()) + IndexText(c.key)) + FieldText(c.buffer)
  }

  lemma Appended(name: string, id: string)
    ensures name + ":" + id == name + (":" + id) && name + "[]" + (":" + id) == name + "[]:" + id
  {
    assert "[]" + ":" == "[]:";
    assert name + "[]" + ":" == name + "[]:";
  }

  lemma Joined(head: string, id: string, index: string)
    ensures head + (":" + id + index) == head + ":" + id + index
  {
  }

  lemma ObjectAddressIs(name: string, field: string, pid: Pid)
    ensures Render(CellRef(ObjectBuffer(name), Whole(pid))) == name + ":" + P.Render(pid)
    ensures Render(CellRef(ObjectProp(name, field), Whole(pid))) == name + ":" + P.Render(pid) + "." + field
    ensures Render(CellRef(AnyObjectBuffer, Whole(pid))) == "Any:" + P.Render(pid)
  {
    hide P.Render;
    var id := P.Render(pid);
    assert name + "" == name && id + "" == id && "Any" + "" == "Any";
    Appended(name, id);
    Appended("Any", id);
  }

  lemma ListAddressIs(name: string, pid: Pid, n: u64)
    ensures Render(CellRef(ListBuffer(name), Whole(pid))) == name + "[]:" + P.Render(pid)
    ensures Render(CellRef(ListElem(name), Elem(pid, n))) == name + "[]:" + P.Render(pid) + "[" + Decimal(n) + "]"
  {
    hide P.Render, Decimal;
    var id := P.Render(pid);
    assert id + "" == id;
    Appended(name, id);
    Joined(name + "[]", id, "[" + Decimal(n) + "]");
  }

  lemma ArrayAddressIs(pid: Pid, n: u64)
    ensures Render(CellRef(AnyArrayBuffer, Elem(pid, n))) == "Any[]:" + P.Render(pid) + "[" + Decimal(n) + "]"
  {
    hide P.Render, Decimal;
    Appended("Any", P.Render(pid));
    Joined("Any" + "[]", P.Render(pid), "[" + Decimal(n) + "]");
  }

  // The six shapes of an address.
  lemma AddressIs(name: string, field: string, pid: Pid, n: u64)
    ensures Render(CellRef(ObjectBuffer(name), Whole(pid))) == name + ":" + P.Render(pid)
    ensures Render(CellRef(ObjectProp(name, field), Whole(pid))) == name + ":" + P.Render(pid) + "." + field
    ensures Render(CellRef(ListBuffer(name), Whole(pid))) == name + "[]:" + P.Render(pid)
    ensures Render(CellRef(ListElem(name), Elem(pid, n))) == name + "[]:" + P.Render(pid) + "[" + Decimal(n) + "]"
    ensures Render(CellRef(AnyObjectBuffer, Whole(pid))) == "Any:" + P.Render(pid)
    ensures Render(CellRef(AnyArrayBuffer, Elem(pid, n))) == "Any[]:" + P.Render(pid) + "[" + Decimal(n) + "]"
  {
    hide Render, P.Render, Decimal;
    ObjectAddressIs(name, field, pid);
    ListAddressIs(name, pid, n);
    ArrayAddressIs(pid, n);
  }

  // --- Parsing ---

  datatype Id = Id(pid: Pid, index: Option<nat>)

  // The id half: a PID in full, or a counter the caller's branch and allocator complete.
  function ReadPid(kind: PidKind, id: string, shorthand: bool, branch: u64, allocator: u32): Option<Pid> {
    if !shorthand then P.Parse(id)
    else
      var counter := ReadU64(id);
      if counter.None? || counter.value >= P.U64_LIMIT then None else Some(Allocated(kind, branch, allocator, counter.value))
  }

  // A list's id, with the index in brackets where there is one.
  function ReadListId(id: string, shorthand: bool, branch: u64, allocator: u32): Option<Id> {
    var at := IndexOf(id, "[");
    if at >= |id| then
      var pid := ReadPid(List, id, shorthand, branch, allocator);
      if pid.None? then None else Some(Id(pid.value, None))
    else
      var bracketed := id[at + 1..];
      if !EndsWith(bracketed, "]") then None
      else
        var index := ReadU64(bracketed[..|bracketed| - 1]);
        var pid := ReadPid(List, id[..at], shorthand, branch, allocator);
        if index.None? || pid.None? then None else Some(Id(pid.value, index))
  }

  function ListCell(element: string, id: Id): Option<CellRef> {
    var key := if id.index.None? then Whole(id.pid)
               else if id.index.value < P.U64_LIMIT then Elem(id.pid, id.index.value) else Whole(id.pid);
    if id.pid.kind == AnyArray then Some(CellRef(AnyArrayBuffer, key))
    else Some(CellRef(if id.index.None? then ListBuffer(element) else ListElem(element), key))
  }

  function ObjectCell(name: string, field: Option<string>, pid: Pid): Option<CellRef> {
    if pid.kind == AnyObject then (if field.Some? then None else Some(CellRef(AnyObjectBuffer, Whole(pid))))
    else Some(CellRef(if field.Some? then ObjectProp(name, field.value) else ObjectBuffer(name), Whole(pid)))
  }

  function ReadParts(name: string, shorthand: bool, id: string, field: Option<string>, branch: u64, allocator: u32): Option<CellRef> {
    if EndsWith(name, "[]") then
      var element := name[..|name| - 2];
      if element == "" || field.Some? then None
      else
        var read := ReadListId(id, shorthand, branch, allocator);
        if read.None? then None else ListCell(element, read.value)
    else if name == "" then None
    else
      var pid := ReadPid(Object, id, shorthand, branch, allocator);
      if pid.None? then None else ObjectCell(name, field, pid.value)
  }

  // Everything before the field: a name, a separator and an id.
  function ReadHead(head: string, field: Option<string>, branch: u64, allocator: u32): Option<CellRef> {
    var at := IndexOf(head, ":#");
    if at >= |head| then None
    else ReadParts(head[..at], head[at] == '#', head[at + 1..], field, branch, allocator)
  }

  // The first dot is the field's.
  function Read(input: string, branch: u64, allocator: u32): Option<CellRef> {
    var dot := IndexOf(input, ".");
    if dot >= |input| then ReadHead(input, None, branch, allocator)
    else if input[dot + 1..] == "" then None
    else ReadHead(input[..dot], Some(input[dot + 1..]), branch, allocator)
  }

  // --- Which cells read back ---

  predicate PlainName(name: string) {
    name != "" && Free(name, ".:#")
  }

  // What the constructors build, with names that hold no separators and a PID of a kind the buffer expects.
  predicate Addressable(c: CellRef) {
    && P.WellFormed(c.Pid())
    && match c.buffer
       case ObjectBuffer(name) => c.key.Whole? && PlainName(name) && !EndsWith(name, "[]") && c.Pid().kind != AnyObject
       case ObjectProp(name, field) =>
         c.key.Whole? && PlainName(name) && !EndsWith(name, "[]") && field != "" && c.Pid().kind != AnyObject
       case ListBuffer(name) => c.key.Whole? && PlainName(name) && c.Pid().kind != AnyArray
       case ListElem(name) => c.key.Elem? && PlainName(name) && c.Pid().kind != AnyArray
       case AnyObjectBuffer => c.key.Whole? && c.Pid().kind == AnyObject
       case AnyArrayBuffer => c.Pid().kind == AnyArray
  }

  lemma PidTextIsFree(p: Pid)
    ensures Free(P.Render(p), ".:#[]")
  {
    var digits := P.Encoded(P.Payload(p));
    forall k | 0 <= k < |digits|
      ensures P.Chars(digits)[k] !in ".:#[]"
    {
      P.DigitReadsBack(digits[k]);
    }
  }

  lemma FreeAppend(a: string, b: string, any: string)
    ensures Free(a + b, any) <==> Free(a, any) && Free(b, any)
  {
    if Free(a + b, any) {
      assert forall k :: 0 <= k < |a| ==> (a + b)[k] == a[k];
      assert forall k :: 0 <= k < |b| ==> (a + b)[|a| + k] == b[k];
    }
  }

  lemma HeadIsFree(c: CellRef)
    requires Addressable(c)
    ensures Free(Head(c), ".:#") && EndsWith(Head(c), "[]") == Address(c.buffer).1 && Head(c) != ""
    ensures Address(c.buffer).1 ==> Head(c)[..|Head(c)| - 2] == Address(c.buffer).0 != ""
  {
    FreeAppend(Address(c.buffer).0, "[]", ".:#");
    assert Address(c.buffer).0 + "" == Address(c.buffer).0;
  }

  lemma IndexIsFree(key: CellKey)
    ensures Free(IndexText(key), ".")
  {
    if key.Elem? {
      hide Decimal, Free;
      DecimalReadsBack(key.index);
      Narrow(Decimal(key.index), ".:#[]+", ".");
      NoDots();
      FreeAppend("[", Decimal(key.index), ".");
      FreeAppend("[" + Decimal(key.index), "]", ".");
    }
  }

  lemma NoDots()
    ensures Free(":", ".") && Free("[", ".") && Free("]", ".")
  {
  }

  lemma IdIsFree(c: CellRef)
    ensures Free(":" + P.Render(c.Pid()) + IndexText(c.key), ".")
  {
    hide P.Render, IndexText, Free;
    PidTextIsFree(c.Pid());
    Narrow(P.Render(c.Pid()), ".:#[]", ".");
    NoDots();
    IndexIsFree(c.key);
    FreeAppend(":", P.Render(c.Pid()), ".");
    FreeAppend(":" + P.Render(c.Pid()), IndexText(c.key), ".");
  }

  lemma Narrow(s: string, any: string, fewer: string)
    requires Free(s, any) && forall k :: 0 <= k < |fewer| ==> fewer[k] in any
    ensures Free(s, fewer)
  {
  }

  lemma SplitHead(name: string, sep: char, id: string, field: Option<string>, branch: u64, allocator: u32)
    requires Free(name, ":#") && sep in ":#"
    ensures ReadHead(name + ([sep] + id), field, branch, allocator) == ReadParts(name, sep == '#', id, field, branch, allocator)
  {
    hide ReadParts;
    var head := name + ([sep] + id);
    IndexIs(name, [sep] + id, ":#");
    assert head[..|name|] == name && head[|name|] == sep && head[|name| + 1..] == id;
  }

  lemma SplitField(head: string, field: string, branch: u64, allocator: u32)
    requires Free(head, ".")
    ensures Read(head, branch, allocator) == ReadHead(head, None, branch, allocator)
    ensures field != "" ==> Read(head + ("." + field), branch, allocator) == ReadHead(head, Some(field), branch, allocator)
  {
    hide ReadHead;
    IndexIs(head, "", ".");
    assert head + "" == head;
    if field != "" {
      var input := head + ("." + field);
      IndexIs(head, "." + field, ".");
      assert input[..|head|] == head && input[|head| + 1..] == field;
    }
  }

  // A list's id text, index and all, reads back.
  lemma SplitIndex(text: string, index: string, branch: u64, allocator: u32)
    requires Free(text, "[")
    ensures ReadListId(text, false, branch, allocator) ==
            if P.Parse(text).None? then None else Some(Id(P.Parse(text).value, None))
    ensures ReadListId(text + ("[" + index + "]"), false, branch, allocator) ==
            if ReadU64(index).None? || P.Parse(text).None? then None else Some(Id(P.Parse(text).value, ReadU64(index)))
  {
    hide P.Parse, ReadU64;
    IndexIs(text, "", "[");
    assert text + "" == text;
    var id := text + ("[" + index + "]");
    IndexIs(text, "[" + index + "]", "[");
    var bracketed := id[|text| + 1..];
    assert id[..|text|] == text && bracketed == index + "]" && bracketed[..|bracketed| - 1] == index;
  }

  lemma ListIdReadsBack(p: Pid, key: CellKey, branch: u64, allocator: u32)
    requires P.WellFormed(p) && key.pid == p
    ensures ReadListId(P.Render(p) + IndexText(key), false, branch, allocator)
            == Some(Id(p, if key.Elem? then Some(key.index as nat) else None))
  {
    hide P.Parse, P.Render, ReadU64, Decimal, ReadListId;
    P.ReadsBack(p);
    PidTextIsFree(p);
    Narrow(P.Render(p), ".:#[]", "[");
    if key.Elem? {
      DecimalReadsBack(key.index);
      SplitIndex(P.Render(p), Decimal(key.index), branch, allocator);
    } else {
      SplitIndex(P.Render(p), "", branch, allocator);
      assert P.Render(p) + "" == P.Render(p);
    }
  }

  lemma PartsReadBack(c: CellRef, branch: u64, allocator: u32)
    requires Addressable(c)
    ensures ReadParts(Head(c), false, P.Render(c.Pid()) + IndexText(c.key),
                      if c.buffer.ObjectProp? then Some(c.buffer.field) else None, branch, allocator) == Some(c)
  {
    hide P.Parse, P.Render, ReadU64, Decimal, ReadListId, PlainName;
    HeadIsFree(c);
    if Address(c.buffer).1 {
      ListIdReadsBack(c.Pid(), c.key, branch, allocator);
    } else {
      P.ReadsBack(c.Pid());
      assert P.Render(c.Pid()) + "" == P.Render(c.Pid());
      assert Address(c.buffer).0 + "" == Address(c.buffer).0;
      assert Head(c) == Address(c.buffer).0;
    }
  }

  // Reading a rendered address gives the cell back, on whatever branch it is read.
  lemma ReadsBack(c: CellRef, branch: u64, allocator: u32)
    requires Addressable(c)
    ensures Read(Render(c), branch, allocator) == Some(c)
  {
    hide P.Parse, P.Render, ReadParts, ReadHead, Read, IndexText, Head, PlainName;
    var id := P.Render(c.Pid()) + IndexText(c.key);
    var head := Head(c) + (":" + P.Render(c.Pid()) + IndexText(c.key));
    assert ":" + P.Render(c.Pid()) + IndexText(c.key) == [':'] + id;
    HeadIsFree(c);
    IdIsFree(c);
    Narrow(Head(c), ".:#", ".");
    Narrow(Head(c), ".:#", ":#");
    FreeAppend(Head(c), ":" + P.Render(c.Pid()) + IndexText(c.key), ".");
    PartsReadBack(c, branch, allocator);
    SplitHead(Head(c), ':', id, if c.buffer.ObjectProp? then Some(c.buffer.field) else None, branch, allocator);
    SplitField(head, if c.buffer.ObjectProp? then c.buffer.field else "", branch, allocator);
    assert head + "" == head;
  }

  // So no two such cells share an address.
  lemma AddressesDiffer(c: CellRef, d: CellRef)
    requires Addressable(c) && Addressable(d) && Render(c) == Render(d)
    ensures c == d
  {
    ReadsBack(c, 0, 0);
    ReadsBack(d, 0, 0);
  }

  // The shorthand names the caller's own branch and allocator, and is the address of that object.
  lemma ShorthandMeans(name: string, n: u64, branch: u64, allocator: u32)
    requires PlainName(name) && !EndsWith(name, "[]")
    ensures Read(name + "#" + Decimal(n), branch, allocator)
            == Some(CellRef(ObjectBuffer(name), Whole(Allocated(Object, branch, allocator, n))))
  {
    hide Decimal, ReadU64, ReadHead, Read, P.Parse;
    var head := name + (['#'] + Decimal(n));
    assert name + "#" + Decimal(n) == head;
    DecimalReadsBack(n);
    Narrow(Decimal(n), ".:#[]+", ".");
    Narrow(name, ".:#", ".");
    Narrow(name, ".:#", ":#");
    FreeAppend(['#'], Decimal(n), ".");
    FreeAppend(name, ['#'] + Decimal(n), ".");
    SplitHead(name, '#', Decimal(n), None, branch, allocator);
    SplitField(head, "", branch, allocator);
  }
}
