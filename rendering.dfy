/**
 * Rendering: the relationships dictionary as Graphviz `digraph` text. A
 * fixed header, then one statement per relationship in key order, each
 * quoting its key and labelling it with its events joined by the two
 * characters `\l`, then a closing brace. Nothing is escaped.
 */
module Rendering {
  import opened Tables

  /** The five header pieces, concatenated without separators: only the first
      two of them end in a newline. */
  const Header: string :=
    "digraph {\n" + "\tsplines=curved;\n" + "\tsep=\"+50,50\";" + "\toverlap=scalexy;" + "\tnodesep=0.6;"

  /** Graphviz's left-justified line break, a backslash followed by `l`. */
  const LabelBreak: string := "\\l"

  /** `parts.join(separator)`. */
  function Join(parts: seq<string>, separator: string): string {
    if parts == [] then ""
    else if |parts| == 1 then parts[0]
    else Join(parts[..|parts| - 1], separator) + separator + parts[|parts| - 1]
  }

  /** The statement for one relationship. */
  function Statement(relName: string, events: seq<string>): string {
    "\t\"" + relName + "\" [label = \"" + Join(events, LabelBreak) + "\" ];\n"
  }

  /** The statements for `keys`, in order. */
  function Statements(keys: seq<string>, rels: Table): string {
    if keys == [] then ""
    else Statements(keys[..|keys| - 1], rels) + Statement(keys[|keys| - 1], rels.Get(keys[|keys| - 1]))
  }

  /** The whole graph text: it starts with the header and ends with the
      closing brace, and with no relationship it is those two alone. */
  function Render(rels: Table): (s: string)
    ensures |s| > |Header| && s[..|Header|] == Header && s[|s| - 1] == '}'
    ensures rels.keys == [] ==> s == Header + "}"
  {
    var s := Header + Statements(rels.keys, rels) + "}";
    assert s[..|Header|] == Header;
    s
  }

  lemma {:induction false} StatementsAppend(a: seq<string>, b: seq<string>, rels: Table)
    ensures Statements(a + b, rels) == Statements(a, rels) + Statements(b, rels)
  {
    if b == [] {
      assert a + b == a;
    } else {
      var init, last := b[..|b| - 1], b[|b| - 1];
      assert (a + b)[..|a + b| - 1] == a + init;
      StatementsAppend(a, init, rels);
    }
  }

  /** Statements follow key order: the statement of the `i`-th key comes right
      after the header and the statements of all earlier keys, and right before
      the statements of all later keys and the closing brace. */
  lemma RenderInKeyOrder(rels: Table, i: nat)
    requires i < |rels.keys|
    ensures Render(rels)
         == Header + Statements(rels.keys[..i], rels)
            + Statement(rels.keys[i], rels.Get(rels.keys[i]))
            + Statements(rels.keys[i + 1..], rels) + "}"
  {
    var keys := rels.keys;
    var before, here, after := Statements(keys[..i], rels), Statement(keys[i], rels.Get(keys[i])), Statements(keys[i + 1..], rels);
    assert Statements(keys, rels) == before + here + after by {
      StatementsSplit(keys, i, rels);
    }
    ConcatAssoc(Header, before, here, after, "}");
  }

  lemma ConcatAssoc(a: string, b: string, c: string, d: string, e: string)
    ensures a + (b + c + d) + e == a + b + c + d + e
  {
  }

  lemma StatementsSplit(keys: seq<string>, i: nat, rels: Table)
    requires i < |keys|
    ensures Statements(keys, rels)
         == Statements(keys[..i], rels) + Statement(keys[i], rels.Get(keys[i])) + Statements(keys[i + 1..], rels)
  {
    assert keys == keys[..i] + ([keys[i]] + keys[i + 1..]);
    StatementsAppend(keys[..i], [keys[i]] + keys[i + 1..], rels);
    StatementsAppend([keys[i]], keys[i + 1..], rels);
    assert [keys[i]][..0] == [];
    assert Statements([keys[i]], rels) == Statement(keys[i], rels.Get(keys[i]));
  }

  /** Joining two non-empty lists one after the other is joining each and
      putting one separator between the two results. */
  lemma {:induction false} JoinAppend(a: seq<string>, b: seq<string>, separator: string)
    requires a != [] && b != []
    ensures Join(a + b, separator) == Join(a, separator) + separator + Join(b, separator)
  {
    var ab := a + b;
    var init, last := b[..|b| - 1], b[|b| - 1];
    if init == [] {
      assert ab[..|ab| - 1] == a;
    } else {
      assert ab[..|ab| - 1] == a + init;
      JoinAppend(a, init, separator);
      ConcatAssoc5(Join(a, separator), separator, Join(init, separator), separator, last);
    }
  }

  lemma ConcatAssoc5(a: string, b: string, c: string, d: string, e: string)
    ensures a + b + c + d + e == a + b + (c + d + e)
  {
  }
}
