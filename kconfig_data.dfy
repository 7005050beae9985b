/**
 * KconfigData of scripts/minikconf.py: the symbol table shared by every
 * parser of one top-level parse, with the list of files already included
 * and the chain of include frames.
 */
module KconfigSemantics {
  import opened Wrappers
  import opened KconfigLexicon

  /** incl_info: None, or a frame naming the including file, the line the
      includer was on, and the frame of the includer itself. */
  datatype InclInfo = NoInclude | Included(file: string, line: nat, parent: InclInfo)

  function IncludedFromLine(file: string, line: nat): string {
    "In file included from " + file + ":" + NatToString(line) + ":\n"
  }

  /** The prefix error_path renders: one line per frame, oldest first. */
  function IncludedFromText(chain: InclInfo): string {
    match chain
    case NoInclude => ""
    case Included(f, l, p) => IncludedFromText(p) + IncludedFromLine(f, l)
  }

  /** The text names the outermost frame first: a chain's prefix begins
      with the prefix of its parent. */
  lemma {:induction false} IncludedFromTextOldestFirst(chain: InclInfo)
    requires chain.Included?
    ensures IncludedFromText(chain.parent) <= IncludedFromText(chain)
    ensures |IncludedFromText(chain)| > |IncludedFromText(chain.parent)|
  {
  }

  /** The contents of a KconfigData, with the tokens consumed so far by the
      parsers that share it. */
  datatype Table = Table(
    previouslyIncluded: seq<string>,
    inclInfo: InclInfo,
    defined: set<string>,
    referenced: set<string>,
    consumed: seq<Lexeme>)

  const EMPTY_TABLE := Table([], NoInclude, {}, {}, [])

  class KconfigData {
    var previouslyIncluded: seq<string>
    var inclInfo: InclInfo
    var definedVars: set<string>
    var referencedVars: set<string>
    /** Every token the parsers of this table consumed, in order. */
    ghost var consumed: seq<Lexeme>

    constructor ()
      ensures Snapshot() == EMPTY_TABLE
    {
      previouslyIncluded := [];
      inclInfo := NoInclude;
      definedVars := {};
      referencedVars := {};
      consumed := [];
    }

    ghost function Snapshot(): Table
      reads this
    {
      Table(previouslyIncluded, inclInfo, definedVars, referencedVars, consumed)
    }

    /** check_undefined: true iff some referenced symbol was never
        declared; `reported` holds the symbols it prints, one per line. */
    method CheckUndefined() returns (undef: bool, reported: set<string>)
      ensures reported == referencedVars - definedVars
      ensures undef <==> !(referencedVars <= definedVars)
    {
      undef := false;
      reported := {};
      var rest := referencedVars;
      while rest != {}
        invariant rest <= referencedVars
        invariant reported == (referencedVars - rest) - definedVars
        invariant undef <==> reported != {}
        decreases |rest|
      {
        var i :| i in rest;
        if i !in definedVars {
          reported := reported + {i};
          undef := true;
        }
        rest := rest - {i};
      }
    }

    /** do_declaration: a name may be declared once per parse. */
    method DoDeclaration(name: string) returns (r: Result<()>)
      modifies this`definedVars
      ensures name in old(definedVars) ==> r == Err(DefinedTwice(name)) && definedVars == old(definedVars)
      ensures name !in old(definedVars) ==> r == Ok(()) && definedVars == old(definedVars) + {name}
    {
      if name in definedVars {
        return Err(DefinedTwice(name));
      }
      definedVars := definedVars + {name};
      return Ok(());
    }

    /** do_var: records a reference and gives the variable's semantic
        value, which is its name. */
    method DoVar(name: string) returns (v: string)
      modifies this`referencedVars
      ensures v == name
      ensures referencedVars == old(referencedVars) + {name}
    {
      referencedVars := referencedVars + {name};
      v := name;
    }

    // The remaining semantic actions do nothing.

    method DoAssignment(name: string, value: bool) {
    }

    method DoDefault(name: string, value: bool) {
    }

    method DoDependsOn(name: string) {
    }

    method DoSelect(name: string, symbol: string) {
    }
  }
}
