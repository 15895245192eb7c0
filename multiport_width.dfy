/** The initial width of a port, as setInitialWidth computes it from the port's width
    specification when the port instance is created. */
module MultiportWidth {
  import opened Wrappers

  /** One term of a width specification: a literal width, or a reference to a parameter with
      the initial integer value the containing reactor gives it, when it gives one. */
  datatype WidthTerm = Literal(width: int) | ParameterRef(value: Option<int>)

  /** A width specification: [] (variable length) or a sum of terms. */
  datatype WidthSpec = WidthSpec(ofVariableLength: bool, terms: seq<WidthTerm>)

  /** The width a term adds: a parameter without a known value counts as 1. */
  function TermWidth(t: WidthTerm): int
  {
    match t
    case Literal(width) => width
    case ParameterRef(value) => if value.Some? then value.value else 1
  }

  /** Whether a term is a parameter whose value cannot be determined. */
  predicate Unresolved(t: WidthTerm)
  {
    t.ParameterRef? && t.value.None?
  }

  /** The widths of the terms, summed from the first. */
  function SumTerms(ts: seq<WidthTerm>): int
  {
    if ts == [] then 0 else SumTerms(ts[..|ts| - 1]) + TermWidth(ts[|ts| - 1])
  }

  /** The number of terms whose width cannot be determined (one warning each). */
  function CountUnresolved(ts: seq<WidthTerm>): (n: nat)
    ensures n <= |ts|
  {
    if ts == [] then 0 else CountUnresolved(ts[..|ts| - 1]) + (if Unresolved(ts[|ts| - 1]) then 1 else 0)
  }

  /** The sum of the widths that are known: literals and parameters with values. */
  function KnownWidth(ts: seq<WidthTerm>): int
  {
    if ts == [] then 0
    else
      var t := ts[0];
      (if t.Literal? then t.width else if t.value.Some? then t.value.value else 0) + KnownWidth(ts[1..])
  }

  lemma {:induction false} KnownWidthSnoc(ts: seq<WidthTerm>, t: WidthTerm)
    ensures KnownWidth(ts + [t]) == KnownWidth(ts) + (if t.Literal? then t.width else if t.value.Some? then t.value.value else 0)
  {
    if ts != [] {
      assert (ts + [t])[1..] == ts[1..] + [t];
      KnownWidthSnoc(ts[1..], t);
    }
  }

  /** The width is the known widths plus one for every undetermined parameter. */
  lemma {:induction false} SumTermsSplit(ts: seq<WidthTerm>)
    ensures SumTerms(ts) == KnownWidth(ts) + CountUnresolved(ts)
  {
    if ts != [] {
      var init, last := ts[..|ts| - 1], ts[|ts| - 1];
      SumTermsSplit(init);
      KnownWidthSnoc(init, last);
      assert init + [last] == ts;
    }
  }

  /** With literals and parameter values of at least 1, the width is at least the number of
      terms. */
  lemma {:induction false} SumTermsAtLeastCount(ts: seq<WidthTerm>)
    requires forall i :: 0 <= i < |ts| ==> TermWidth(ts[i]) >= 1
    ensures SumTerms(ts) >= |ts|
  {
    if ts != [] {
      var init := ts[..|ts| - 1];
      assert forall i :: 0 <= i < |init| ==> init[i] == ts[i];
      SumTermsAtLeastCount(init);
    }
  }

  /** The width fields of a port instance. */
  class PortWidth {
    /** The number of channels of the port. */
    var width: int
    /** Whether the port was declared with a width specification. */
    var isMultiport: bool
    /** Errors and warnings reported for this port. */
    var errors: nat
    var warnings: nat

    /** A port of the given width that is not (yet) a multiport, with nothing reported. */
    constructor (initialWidth: int)
      ensures width == initialWidth && !isMultiport && errors == 0 && warnings == 0
    {
      width := initialWidth;
      isMultiport := false;
      errors := 0;
      warnings := 0;
    }

    /** setInitialWidth: no specification leaves the port as it is; a variable-length one is
        reported as an error and leaves it as it is; otherwise the port is a multiport whose
        width is the sum of the terms, each undetermined parameter counting as 1 and reported
        with a warning. */
    method SetInitialWidth(spec: Option<WidthSpec>)
      modifies this
      ensures spec.None? ==>
                width == old(width) && isMultiport == old(isMultiport) &&
                errors == old(errors) && warnings == old(warnings)
      ensures spec.Some? && spec.value.ofVariableLength ==>
                width == old(width) && isMultiport == old(isMultiport) &&
                errors == old(errors) + 1 && warnings == old(warnings)
      ensures spec.Some? && !spec.value.ofVariableLength ==>
                isMultiport && width == SumTerms(spec.value.terms) &&
                errors == old(errors) && warnings == old(warnings) + CountUnresolved(spec.value.terms)
    {
      if spec.Some? {
        if spec.value.ofVariableLength {
          errors := errors + 1;
        } else {
          isMultiport := true;
          var terms := spec.value.terms;
          width := 0;
          for i := 0 to |terms|
            invariant isMultiport && errors == old(errors)
            invariant width == SumTerms(terms[..i])
            invariant warnings == old(warnings) + CountUnresolved(terms[..i])
          {
            assert terms[..i + 1][..i] == terms[..i];
            match terms[i]
            case ParameterRef(value) =>
              if value.Some? {
                width := width + value.value;
              } else {
                warnings := warnings + 1;
                width := width + 1;
              }
            case Literal(w) =>
              width := width + w;
          }
          assert terms[..|terms|] == terms;
        }
      }
    }
  }
}
