/** Filter terms over activity (`ncda/src/tui/filter.rs`). */
module Filter {
  import opened Saturating
  import opened Processes
  import opened Numerals

  datatype Term =
    | AnyField(value: string)
    | PathField(value: string)
    | PidField(pid: u32)
    | ProcessField(value: string)
    | ContainerField(value: string)

  /** `lower` stands for Unicode lower-casing. */
  datatype Query = Query(terms: seq<Term>, lower: string -> string)

  predicate Contains(text: string, part: string) {
    part <= text || (text != "" && Contains(text[1..], part))
  }

  predicate MatchesTerm(term: Term, path: string, pid: u32, comm: string, container: string) {
    match term
    case AnyField(value) =>
      Contains(path, value) || Contains(Decimal(pid), value) || Contains(comm, value) || Contains(container, value)
    case PathField(value) => Contains(path, value)
    case PidField(wanted) => pid == wanted
    case ProcessField(value) => Contains(comm, value)
    case ContainerField(value) => Contains(container, value)
  }

  /** `matches_activity`: all terms hold; unknown processes have no name or container. */
  predicate Matches(query: Query, path: string, pid: u32, process: Option<ProcessInfo>) {
    var comm := if process.Some? then query.lower(process.value.comm) else "";
    var container :=
      if process.Some? && process.value.container.Some? then query.lower(process.value.container.value) else "";
    forall i :: 0 <= i < |query.terms| ==> MatchesTerm(query.terms[i], query.lower(path), pid, comm, container)
  }

  // --- What terms select ---

  /** The part stands in the text, from `i` on. */
  ghost predicate OccursAt(text: string, part: string, i: nat) { i + |part| <= |text| && text[i..i + |part|] == part }

  ghost predicate Occurs(text: string, part: string) { exists i :: OccursAt(text, part, i) }

  lemma {:induction false} ContainsOccurs(text: string, part: string)
    ensures Contains(text, part) <==> Occurs(text, part)
  {
    if part <= text { assert OccursAt(text, part, 0); }
    if text != "" {
      var rest := text[1..];
      ContainsOccurs(rest, part);
      if i: nat :| OccursAt(rest, part, i) {
        assert text[i + 1..i + 1 + |part|] == rest[i..i + |part|];
        assert OccursAt(text, part, i + 1);
      }
      if i: nat :| OccursAt(text, part, i) && i > 0 {
        assert rest[i - 1..i - 1 + |part|] == text[i..i + |part|];
        assert OccursAt(rest, part, i - 1);
      }
    }
  }

  /** The lower-case command of a process; empty if the process has no row. */
  ghost function CommText(lower: string -> string, process: Option<ProcessInfo>): string {
    if process == None then "" else lower(process.value.comm)
  }

  /** The same for its container. */
  ghost function ContainerText(lower: string -> string, process: Option<ProcessInfo>): string {
    if process == None || process.value.container == None then "" else lower(process.value.container.value)
  }

  /** What a term asks of one activity. */
  ghost predicate Asks(term: Term, lower: string -> string, path: string, pid: u32, process: Option<ProcessInfo>) {
    match term
    case PathField(value) => Occurs(lower(path), value)
    case PidField(wanted) => pid == wanted
    case ProcessField(value) => Occurs(CommText(lower, process), value)
    case ContainerField(value) => Occurs(ContainerText(lower, process), value)
    case AnyField(value) =>
      || Occurs(lower(path), value) || Occurs(Decimal(pid), value)
      || Occurs(CommText(lower, process), value) || Occurs(ContainerText(lower, process), value)
  }

  /** A query asks for all of its terms. */
  lemma MatchesAll(query: Query, path: string, pid: u32, process: Option<ProcessInfo>)
    ensures Matches(query, path, pid, process)
       <==> forall i :: 0 <= i < |query.terms| ==> Asks(query.terms[i], query.lower, path, pid, process)
  {
    hide Contains, Occurs, Decimal;
    forall text, part { ContainsOccurs(text, part); }
  }
}
