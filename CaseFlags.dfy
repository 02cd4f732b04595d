/** What the case flags assigned to a person decide: whether they deny
    entry or leaving (cr.py:85-89), and which advisory for the reception
    staff they produce and what it says (cr.py:91-109). */
module CaseFlags {
  import opened Wrappers
  import opened Records
  import opened Whitespace

  /** An advisory: the flag's name as heading and its instructions as body.
      The source renders it as `DIV(H4(name), P(instructions))`. */
  datatype Advisory = Advisory(heading: string, body: string)

  /** The presence states that `SitePresence.status` reports. */
  const PresenceIn: string := "IN"
  const PresenceOut: string := "OUT"

  /** The body used when a flag has no usable instructions. */
  const NoInstructions: string := "No instructions for this flag"

  /** Whether the flag is shown, given the person's presence at the site:
      always for an ID check; on the way out if the person is in; on the
      way in if the person is out; either way when the state is anything
      else (cr.py:91-99). */
  predicate Advise(f: CaseFlag, presence: string)
  {
    if f.adviseAtIdCheck then true
    else if presence == PresenceIn then f.adviseAtCheckOut
    else if presence == PresenceOut then f.adviseAtCheckIn
    else f.adviseAtCheckIn || f.adviseAtCheckOut
  }

  /** The advisory body: the stripped instructions, or the placeholder when
      there are none or they are blank (cr.py:101-105). */
  function InstructionsText(instructions: Option<string>): (body: string)
    ensures body != []
    ensures instructions.None? ==> body == NoInstructions
    ensures (instructions.Some? && forall k :: 0 <= k < |instructions.value| ==> IsSpace(instructions.value[k]))
            ==> body == NoInstructions
    ensures (instructions.Some? && exists k :: 0 <= k < |instructions.value| && !IsSpace(instructions.value[k]))
            ==> body == Strip(instructions.value) && !IsSpace(body[0]) && !IsSpace(body[|body| - 1])
  {
    var text := if instructions.Some? then Strip(instructions.value) else [];
    if text == [] then NoInstructions else text
  }

  // ---------------------------------------------------------------------
  // Denials

  /** Entry stays allowed over the flags in order until a flag denies it,
      and is never allowed again after that (cr.py:64, 86-87). */
  predicate AllowsEntry(flags: seq<CaseFlag>)
  {
    flags == [] || (AllowsEntry(flags[..|flags| - 1]) && !flags[|flags| - 1].denyCheckIn)
  }

  /** Leaving, likewise (cr.py:65, 88-89). */
  predicate AllowsExit(flags: seq<CaseFlag>)
  {
    flags == [] || (AllowsExit(flags[..|flags| - 1]) && !flags[|flags| - 1].denyCheckOut)
  }

  /** Entry is allowed exactly when no flag denies it, and leaving exactly
      when no flag denies it. */
  lemma {:induction false} AllowsExactlyWithoutDenial(flags: seq<CaseFlag>)
    ensures AllowsEntry(flags) <==> forall k :: 0 <= k < |flags| ==> !flags[k].denyCheckIn
    ensures AllowsExit(flags) <==> forall k :: 0 <= k < |flags| ==> !flags[k].denyCheckOut
  {
    if flags != [] {
      var init := flags[..|flags| - 1];
      AllowsExactlyWithoutDenial(init);
      assert forall k :: 0 <= k < |init| ==> init[k] == flags[k];
    }
  }

  /** The aggregation is a logical AND of allowances (an OR of denials):
      joining two flag lists allows a direction exactly when both do, so
      more flags can only deny more. */
  lemma {:induction false} AllowsAppend(xs: seq<CaseFlag>, ys: seq<CaseFlag>)
    ensures AllowsEntry(xs + ys) <==> AllowsEntry(xs) && AllowsEntry(ys)
    ensures AllowsExit(xs + ys) <==> AllowsExit(xs) && AllowsExit(ys)
  {
    if ys == [] {
      assert xs + ys == xs;
    } else {
      var init := ys[..|ys| - 1];
      assert (xs + ys)[..|xs + ys| - 1] == xs + init;
      AllowsAppend(xs, init);
    }
  }

  // ---------------------------------------------------------------------
  // Advisories

  /** The advisory a flag produces when it is shown. */
  function AdvisoryOf(f: CaseFlag): (a: Advisory)
    ensures a.heading == f.name
    ensures a.body != []
  {
    Advisory(f.name, InstructionsText(f.instructions))
  }

  /** The advisories for `flags`, one per shown flag, in flag order
      (cr.py:82-111). */
  function Advisories(flags: seq<CaseFlag>, presence: string): (r: seq<Advisory>)
    ensures |r| <= |flags|
  {
    if flags == [] then []
    else
      var last := flags[|flags| - 1];
      Advisories(flags[..|flags| - 1], presence) + (if Advise(last, presence) then [AdvisoryOf(last)] else [])
  }

  /** The four-way rule of Advise, spelled out as a disjunction. */
  predicate ShownUnderRule(f: CaseFlag, presence: string)
  {
    || f.adviseAtIdCheck
    || (presence == PresenceIn && f.adviseAtCheckOut)
    || (presence == PresenceOut && f.adviseAtCheckIn)
    || (presence != PresenceIn && presence != PresenceOut && (f.adviseAtCheckIn || f.adviseAtCheckOut))
  }

  lemma AdviseIsRule(f: CaseFlag, presence: string)
    ensures Advise(f, presence) <==> ShownUnderRule(f, presence)
  {
  }

  /** An advisory is in the list exactly when some flag is shown and
      produces it. */
  lemma {:induction false} AdvisoriesMembers(flags: seq<CaseFlag>, presence: string, a: Advisory)
    ensures a in Advisories(flags, presence) <==>
              exists k :: 0 <= k < |flags| && Advise(flags[k], presence) && a == AdvisoryOf(flags[k])
  {
    if flags != [] {
      var init := flags[..|flags| - 1];
      AdvisoriesMembers(init, presence, a);
      assert forall k :: 0 <= k < |init| ==> init[k] == flags[k];
    }
  }

  /** An advisory is in the list exactly when some flag is shown under the
      four-way rule and produces it. */
  lemma AdvisoriesContents(flags: seq<CaseFlag>, presence: string, a: Advisory)
    ensures a in Advisories(flags, presence) <==>
              exists k :: 0 <= k < |flags| && ShownUnderRule(flags[k], presence) && a == AdvisoryOf(flags[k])
  {
    AdvisoriesMembers(flags, presence, a);
    forall k | 0 <= k < |flags| { AdviseIsRule(flags[k], presence); }
  }

  /** The list is built flag by flag: the advisories of a concatenation are
      the concatenation of the advisories, so their order is the flags'. */
  lemma {:induction false} AdvisoriesAppend(xs: seq<CaseFlag>, ys: seq<CaseFlag>, presence: string)
    ensures Advisories(xs + ys, presence) == Advisories(xs, presence) + Advisories(ys, presence)
  {
    if ys == [] {
      assert xs + ys == xs;
    } else {
      var init := ys[..|ys| - 1];
      assert (xs + ys)[..|xs + ys| - 1] == xs + init;
      AdvisoriesAppend(xs, init, presence);
    }
  }

  /** No advisory at all exactly when no flag is shown. */
  lemma {:induction false} AdvisoriesEmpty(flags: seq<CaseFlag>, presence: string)
    ensures Advisories(flags, presence) == [] <==> forall k :: 0 <= k < |flags| ==> !Advise(flags[k], presence)
  {
    if flags != [] {
      var init := flags[..|flags| - 1];
      AdvisoriesEmpty(init, presence);
      assert forall k :: 0 <= k < |init| ==> init[k] == flags[k];
    }
  }

  /** Two flags with the same name, instructions and advise settings. */
  predicate SameAdvice(f: CaseFlag, g: CaseFlag)
  {
    && f.name == g.name
    && f.instructions == g.instructions
    && f.adviseAtCheckIn == g.adviseAtCheckIn
    && f.adviseAtCheckOut == g.adviseAtCheckOut
    && f.adviseAtIdCheck == g.adviseAtIdCheck
  }

  /** The advisories do not depend on the deny settings (nor on the IDs or
      deleted marks) of the flags. */
  lemma {:induction false} AdvisoriesIgnoreDeny(flags: seq<CaseFlag>, others: seq<CaseFlag>, presence: string)
    requires |flags| == |others|
    requires forall k :: 0 <= k < |flags| ==> SameAdvice(flags[k], others[k])
    ensures Advisories(flags, presence) == Advisories(others, presence)
  {
    if flags != [] {
      AdvisoriesIgnoreDeny(flags[..|flags| - 1], others[..|others| - 1], presence);
    }
  }
}
