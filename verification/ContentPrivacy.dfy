/** Host-controlled provenance values: origins, exact revisions, scoped requests and the matching rule. */
module ContentPrivacy {

  datatype Origin = Origin(
    tenant: string, source: string, group: string,
    generation: nat, subjects: seq<string>, nonpersonal: bool)

  /** Identity of one revision: the primary key of the revision table. */
  datatype Key = Key(tenant: string, artifact: string, revision: string)

  datatype Revision = Revision(
    tenant: string, artifact: string, revision: string, sink: string, digest: string)
  {
    function Id(): Key { Key(tenant, artifact, revision) }
  }

  datatype Operation = Redact | Export

  datatype Request = Request(
    id: string, tenant: string, source: string, group: string,
    through: nat, operation: Operation, subjects: seq<string>)
  {
    /** Does this request reach `o`? An origin without subjects is reached by every subject scope. */
    predicate Matches(o: Origin) {
      && tenant == o.tenant && source == o.source && group == o.group
      && o.generation <= through
      && (subjects == []
          || (!o.nonpersonal && (o.subjects == [] || exists x :: x in subjects && x in o.subjects)))
    }

    predicate MatchesAny(origins: set<Origin>) {
      exists o :: o in origins && Matches(o)
    }

    /** A subject-scoped request reaches `o` although nobody knows whose data it is. */
    predicate ReachesBlindly(o: Origin) {
      subjects != [] && o.subjects == [] && Matches(o)
    }
  }
}
