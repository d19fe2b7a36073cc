/** Json::FastWriter and its helpers in the form of the source: strings built by loops and a
    document_ that grows by appending. */
module JsonWriter {
  import opened Bytes
  import opened Json

  /** uintToString: the digits are stored from the end of the buffer backwards. */
  method UintToString(n: nat) returns (current: bytes)
    ensures current == Digits(n)
  {
    var value := n;
    current := [ZERO + value % 10];
    value := value / 10;
    while value != 0
      invariant Digits(n) == if value == 0 then current else Digits(value) + current
    {
      current := [ZERO + value % 10] + current;
      value := value / 10;
    }
  }

  /** valueToString(LargestInt) and valueToString(LargestUInt). The negation overflows at -2^63. */
  method IntToString(n: int) returns (r: bytes)
    requires MIN_LARGEST_INT < n <= MAX_LARGEST_UINT
    ensures r == PrintInt(n)
  {
    var isNegative := n < 0;
    var value := if isNegative then -n else n;
    r := UintToString(value);
    if isNegative { r := [MINUS] + r; }
  }

  predicate HasSpecial(s: bytes) {
    exists i :: 0 <= i < |s| && NeedsEscape(s[i])
  }

  /** strpbrk on the special characters, and containsControlCharacter. */
  method ContainsSpecial(value: bytes) returns (special: bool)
    ensures special <==> HasSpecial(CString(value))
  {
    var c := 0;
    special := false;
    CStringPrefix(value);
    while c < |value| && value[c] != 0
      invariant 0 <= c <= |value| && value[..c] <= CString(value) && 0 !in value[..c]
      invariant special <==> exists i :: 0 <= i < c && NeedsEscape(value[i])
    {
      CStringGrows(value, c);
      if NeedsEscape(value[c]) { special := true; }
      c := c + 1;
    }
    CStringEnds(value, c);
  }

  /** valueToQuotedString on a C string: verbatim if nothing needs escaping, else byte by byte. */
  method ValueToQuotedString(value: bytes) returns (result: bytes)
    ensures result == Quote(CString(value))
  {
    var special := ContainsSpecial(value);
    if !special {
      PlainEscape(CString(value));
      return [QUOTE] + CString(value) + [QUOTE];
    }
    result := EscapeAll(value);
  }

  /** Its loop over the bytes. */
  method EscapeAll(value: bytes) returns (result: bytes)
    ensures result == Quote(CString(value))
  {
    result := [QUOTE];
    var c := 0;
    assert value[..0] == [] && [QUOTE] + [] == [QUOTE];
    while c < |value| && value[c] != 0
      invariant 0 <= c <= |value| && 0 !in value[..c]
      invariant result == [QUOTE] + Escape(value[..c])
    {
      EscapeSnoc(value[..c], value[c]);
      assert value[..c] + [value[c]] == value[..c + 1];
      Assoc3([QUOTE], Escape(value[..c]), EscapeByte(value[c]));
      result := result + EscapeByte(value[c]);
      c := c + 1;
    }
    CStringEnds(value, c);
    result := result + [QUOTE];
  }

  lemma {:induction false} CStringPrefix(s: bytes)
    ensures CString(s) <= s
  {
    if s != [] && s[0] != 0 { CStringPrefix(s[1..]); }
  }

  /** A prefix without NUL, ended by the buffer or a NUL, is the C string. */
  lemma {:induction false} CStringEnds(s: bytes, c: nat)
    requires c <= |s| && 0 !in s[..c] && (c == |s| || s[c] == 0)
    ensures CString(s) == s[..c]
  {
    if c > 0 {
      assert s[0] == s[..c][0];
      assert s[1..][..c - 1] == s[..c][1..];
      CStringEnds(s[1..], c - 1);
      assert s[..c] == [s[0]] + s[1..][..c - 1];
    }
  }

  lemma {:induction false} CStringGrows(s: bytes, c: nat)
    requires c < |s| && 0 !in s[..c] && s[c] != 0
    ensures s[..c + 1] <= CString(s) && 0 !in s[..c + 1]
  {
    assert s[..c + 1] == s[..c] + [s[c]];
    if c > 0 {
      assert s[0] == s[..c][0] && s[1..][..c - 1] == s[..c][1..];
      CStringGrows(s[1..], c - 1);
      assert s[..c + 1] == [s[0]] + s[1..][..c];
    }
  }

  /** The shortcut of valueToQuotedString is the general case on strings without special bytes. */
  lemma {:induction false} PlainEscape(s: bytes)
    requires !HasSpecial(s)
    ensures Escape(s) == s
  {
    if s != [] {
      assert !NeedsEscape(s[0]);
      assert forall i :: 0 <= i < |s| - 1 ==> s[1..][i] == s[i + 1];
      PlainEscape(s[1..]);
    }
  }

  lemma {:induction false} EscapeSnoc(s: bytes, c: byte)
    ensures Escape(s + [c]) == Escape(s) + EscapeByte(c)
  {
    if s == [] {
      assert [] + [c] == [c] && [c][1..] == [];
    } else {
      assert (s + [c])[1..] == s[1..] + [c];
      EscapeSnoc(s[1..], c);
    }
  }

  lemma {:induction false} PrintItemsSnoc(vs: seq<Value>, v: Value)
    ensures PrintItems(vs + [v]) == PrintItems(vs) + (if vs == [] then [] else [COMMA]) + Print(v)
  {
    if vs == [] {
      assert [] + [v] == [v];
    } else {
      assert (vs + [v])[1..] == vs[1..] + [v];
      PrintItemsSnoc(vs[1..], v);
    }
  }

  lemma {:induction false} PrintMembersSnoc(ms: seq<Member>, m: Member)
    ensures PrintMembers(ms + [m]) == PrintMembers(ms) + (if ms == [] then [] else [COMMA]) + PrintMember(m)
  {
    if ms == [] {
      assert [] + [m] == [m];
    } else {
      assert (ms + [m])[1..] == ms[1..] + [m];
      PrintMembersSnoc(ms[1..], m);
    }
  }

  class FastWriter {
    var document: bytes   // document_

    constructor ()
      ensures document == []
    {
      document := [];
    }

    method WriteAll(root: Value) returns (text: bytes)
      requires Printable(root)
      modifies this
      ensures text == document == Write(root)
    {
      document := [];
      WriteValue(root);
      document := document + [NEWLINE];
      text := document;
    }

    method WriteValue(value: Value)
      requires Printable(value)
      modifies this
      ensures document == old(document) + Print(value)
      decreases value, 1
    {
      match value
      case Null => document := document + NULL_TEXT;
      case Bool(b) => document := document + if b then TRUE_TEXT else FALSE_TEXT;
      case Int(n) =>
        var text := IntToString(n);
        document := document + text;
      case Str(s) =>
        var text := ValueToQuotedString(s);
        document := document + text;
      case Arr(items) => WriteItems(items);
      case Obj(members) => WriteMembers(members);
    }

    method WriteItems(items: seq<Value>)
      requires AllPrintable(items)
      modifies this
      ensures document == old(document) + Print(Arr(items))
      decreases items, 0
    {
      document := document + [OPEN_BRACKET];
      ghost var before, text: bytes := document, [];
      var index := 0;
      assert items[..0] == [] && before + [] == before;
      while index < |items|
        invariant 0 <= index <= |items|
        invariant document == before + text && text == PrintItems(items[..index])
      {
        ghost var comma := if items[..index] == [] then [] else [COMMA];
        PrintItemsSnoc(items[..index], items[index]);
        assert items[..index] + [items[index]] == items[..index + 1];
        Assoc4(before, text, comma, Print(items[index]));
        Assoc3(text, comma, Print(items[index]));
        if index > 0 {
          document := document + [COMMA];
        }
        assert document == before + text + comma;
        WriteValue(items[index]);
        text := text + comma + Print(items[index]);
        index := index + 1;
      }
      assert items[..index] == items;
      document := document + [CLOSE_BRACKET];
    }

    method WriteMembers(members: seq<Member>)
      requires MembersPrintable(members)
      modifies this
      ensures document == old(document) + Print(Obj(members))
      decreases members, 0
    {
      document := document + [OPEN_BRACE];
      ghost var before, text: bytes := document, [];
      var it := 0;
      assert members[..0] == [] && before + [] == before;
      while it < |members|
        invariant 0 <= it <= |members|
        invariant document == before + text && text == PrintMembers(members[..it])
      {
        ghost var comma := if members[..it] == [] then [] else [COMMA];
        PrintMembersSnoc(members[..it], members[it]);
        assert members[..it] + [members[it]] == members[..it + 1];
        Assoc4(before, text, comma, PrintMember(members[it]));
        Assoc3(text, comma, PrintMember(members[it]));
        if it > 0 {
          document := document + [COMMA];
        }
        assert document == before + text + comma;
        WriteMember(members[it]);
        text := text + comma + PrintMember(members[it]);
        it := it + 1;
      }
      assert members[..it] == members;
      document := document + [CLOSE_BRACE];
    }

    method WriteMember(m: Member)
      requires 0 !in m.key && Printable(m.value)
      modifies this
      ensures document == old(document) + PrintMember(m)
      decreases m, 2
    {
      var name := ValueToQuotedString(m.key);
      document := document + name + [COLON];
      WriteValue(m.value);
    }
  }
}
