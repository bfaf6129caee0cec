/** Qualified method names, the comma-joined attribute that advertises them, and
    the ways the code takes a qualified name apart again. */
module Names {

  function Qualified(controller: string, name: string): string {
    controller + "." + name
  }

  function QualifiedAll(controller: string, names: seq<string>): (r: seq<string>)
    ensures |r| == |names|
    ensures forall i :: 0 <= i < |names| ==> r[i] == Qualified(controller, names[i])
  {
    seq(|names|, i requires 0 <= i < |names| => Qualified(controller, names[i]))
  }

  /** The names in one string, with the separator between neighbours. */
  function Join(names: seq<string>, sep: char): string {
    if names == [] then ""
    else if |names| == 1 then names[0]
    else names[0] + [sep] + Join(names[1..], sep)
  }

  /** The pieces between separators: at least one, and empty ones are kept. */
  function Split(s: string, sep: char): (pieces: seq<string>)
    ensures |pieces| >= 1
  {
    if s == "" then [""]
    else
      var rest := Split(s[1..], sep);
      if s[0] == sep then [""] + rest else [[s[0]] + rest[0]] + rest[1..]
  }

  /** The pieces that are not empty, in order. */
  function DropEmpty(pieces: seq<string>): seq<string> {
    if pieces == [] then []
    else if pieces[0] == "" then DropEmpty(pieces[1..])
    else [pieces[0]] + DropEmpty(pieces[1..])
  }

  /** What follows the first dot; all of it if there is none. */
  function AfterFirstDot(name: string): string {
    if '.' !in name then name
    else if name[0] == '.' then name[1..]
    else AfterFirstDot(name[1..])
  }

  lemma {:induction false} SplitAtSeparator(head: string, rest: string, sep: char)
    requires sep !in head
    ensures Split(head + [sep] + rest, sep) == [head] + Split(rest, sep)
  {
    if head == "" {
      assert (head + [sep] + rest)[1..] == rest;
    } else {
      SplitAtSeparator(head[1..], rest, sep);
      assert (head + [sep] + rest)[1..] == head[1..] + [sep] + rest;
      assert [head[0]] + head[1..] == head;
    }
  }

  lemma {:induction false} SplitWithoutSeparator(s: string, sep: char)
    requires sep !in s
    ensures Split(s, sep) == [s]
  {
    if s != "" {
      SplitWithoutSeparator(s[1..], sep);
      assert [s[0]] + s[1..] == s;
    }
  }

  lemma {:induction false} SplitPiecesLackSeparator(s: string, sep: char)
    ensures forall p :: p in Split(s, sep) ==> sep !in p
  {
    if s != "" {
      SplitPiecesLackSeparator(s[1..], sep);
      var rest := Split(s[1..], sep);
      assert sep !in rest[0];
    }
  }

  lemma {:induction false} SplitUndoesJoin(names: seq<string>, sep: char)
    requires names != []
    requires forall n :: n in names ==> sep !in n
    ensures Split(Join(names, sep), sep) == names
  {
    if |names| == 1 {
      SplitWithoutSeparator(names[0], sep);
    } else {
      SplitUndoesJoin(names[1..], sep);
      SplitAtSeparator(names[0], Join(names[1..], sep), sep);
    }
  }

  lemma {:induction false} DropEmptySelects(pieces: seq<string>)
    ensures forall p :: p in DropEmpty(pieces) ==> p in pieces
  {
    if pieces != [] {
      DropEmptySelects(pieces[1..]);
    }
  }

  lemma {:induction false} DropEmptyKeeps(pieces: seq<string>)
    requires forall i :: 0 <= i < |pieces| ==> pieces[i] != ""
    ensures DropEmpty(pieces) == pieces
  {
    if pieces != [] {
      DropEmptyKeeps(pieces[1..]);
      assert pieces == [pieces[0]] + pieces[1..];
    }
  }

  /** The pieces that are not empty are kept, in order, and the others dropped. */
  lemma {:induction false} DropEmptyFilters(pieces: seq<string>, more: seq<string>)
    ensures DropEmpty(pieces + more) == DropEmpty(pieces) + DropEmpty(more)
    ensures |pieces| == 1 ==> DropEmpty(pieces) == if pieces[0] == "" then [] else pieces
  {
    if pieces == [] {
      assert pieces + more == more;
    } else {
      assert (pieces + more)[0] == pieces[0] && (pieces + more)[1..] == pieces[1..] + more;
      DropEmptyFilters(pieces[1..], more);
      assert |pieces| == 1 ==> pieces[1..] == [];
    }
  }

  /** The `rpc.methods` attribute gives back the list it was built from exactly
      when no qualified name contains a comma. */
  lemma AdvertisedListSurvivesIff(controller: string, locals: seq<string>)
    ensures var names := QualifiedAll(controller, locals);
            DropEmpty(Split(Join(names, ','), ',')) == names <==> forall n :: n in names ==> ',' !in n
  {
    var names := QualifiedAll(controller, locals);
    var pieces := Split(Join(names, ','), ',');
    SplitPiecesLackSeparator(Join(names, ','), ',');
    DropEmptySelects(pieces);
    if names == [] {
      assert pieces == [""];
    } else if forall n :: n in names ==> ',' !in n {
      SplitUndoesJoin(names, ',');
      DropEmptyKeeps(names);
    }
  }

  /** Two qualified names with dot-free local parts are equal only when both
      parts are, even if the controller names contain dots. */
  lemma QualifiedSplitIsUnique(c1: string, m1: string, c2: string, m2: string)
    requires '.' !in m1 && '.' !in m2
    requires Qualified(c1, m1) == Qualified(c2, m2)
    ensures c1 == c2 && m1 == m2
  {
    LastSeparator(c1, m1, c2, m2, '.');
  }

  /** A text splits in one way at the last separator. */
  lemma LastSeparator(c1: string, m1: string, c2: string, m2: string, sep: char)
    requires sep !in m1 && sep !in m2
    requires c1 + [sep] + m1 == c2 + [sep] + m2
    ensures c1 == c2 && m1 == m2
  {
    var q := c1 + [sep] + m1;
    assert q[|c1|] == sep && q[|c2|] == sep;
    assert forall i :: |c1| < i < |q| ==> q[i] == m1[i - |c1| - 1];
    assert forall i :: |c2| < i < |q| ==> q[i] == m2[i - |c2| - 1];
    assert |c1| == |c2|;
    assert c1 == q[..|c1|] == c2;
    assert m1 == q[|c1| + 1..] == m2;
  }

  lemma {:induction false} AfterFirstDotOfDotFree(controller: string, name: string)
    requires '.' !in controller
    ensures AfterFirstDot(Qualified(controller, name)) == name
  {
    var q := Qualified(controller, name);
    assert q[|controller|] == '.';
    if controller == "" {
      assert q[1..] == name;
    } else {
      assert q[0] == controller[0] != '.';
      assert q[1..] == Qualified(controller[1..], name);
      AfterFirstDotOfDotFree(controller[1..], name);
    }
  }

  lemma {:induction false} AfterFirstDotOfDotted(controller: string, name: string)
    requires '.' in controller
    ensures |AfterFirstDot(Qualified(controller, name))| > |name|
  {
    var q := Qualified(controller, name);
    assert q[|controller|] == '.';
    assert q[0] == controller[0];
    assert q[1..] == Qualified(controller[1..], name);
    if controller[0] != '.' {
      AfterFirstDotOfDotted(controller[1..], name);
    }
  }

  /** Cutting at the first dot leaves what follows it, or the whole name without one. */
  lemma {:induction false} AfterFirstDotCuts(name: string, head: string)
    ensures '.' !in name ==> AfterFirstDot(name) == name
    ensures '.' !in head ==> AfterFirstDot(head + "." + name) == name
  {
    if head != "" && '.' !in head {
      AfterFirstDotCuts(name, head[1..]);
      assert (head + "." + name)[1..] == head[1..] + "." + name;
      assert (head + "." + name)[0] == head[0];
      assert (head + "." + name)[|head|] == '.';
    } else if head == "" {
      assert (head + "." + name)[0] == '.' && (head + "." + name)[1..] == name;
    }
  }

  /** Cutting a qualified name at its first dot finds the local name exactly when
      the controller name has no dot. */
  lemma LocalNameRecoveredIff(controller: string, name: string)
    ensures AfterFirstDot(Qualified(controller, name)) == name <==> '.' !in controller
  {
    if '.' in controller {
      AfterFirstDotOfDotted(controller, name);
    } else {
      AfterFirstDotOfDotFree(controller, name);
    }
  }
}
