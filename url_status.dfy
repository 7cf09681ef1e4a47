/** The status enum of a short URL (app/Enums/UrlStatus.php). */
module UrlStatusEnum {
  import opened Wrappers

  /** A string-backed enum: each case has a backing value and a Spanish label. */
  datatype UrlStatus = Active | Inactive | Expired
  {
    /** The backing value stored in the database. */
    function Value(): string
    {
      match this
      case Active => "active"
      case Inactive => "inactive"
      case Expired => "expired"
    }

    /** The display label (`label()`). */
    function Label(): string
    {
      match this
      case Active => "Activo"
      case Inactive => "Inactivo"
      case Expired => "Expirado"
    }

    /** Only the Active status grants access. */
    predicate IsAccessible()
    {
      this == Active
    }
  }

  /** `UrlStatus::from($s)`: the case whose backing value is `s`; PHP throws a ValueError otherwise. */
  function From(s: string): (r: Option<UrlStatus>)
    ensures r.Some? ==> r.value.Value() == s
    ensures r.None? ==> s != "active" && s != "inactive" && s != "expired"
  {
    if s == "active" then Some(Active)
    else if s == "inactive" then Some(Inactive)
    else if s == "expired" then Some(Expired)
    else None
  }

  /** Parsing a case's backing value gives the case back. */
  lemma FromValue(s: UrlStatus)
    ensures From(s.Value()) == Some(s)
  {
  }

  /** Only the three backing values parse, and each to its own case. */
  lemma FromSucceedsExactlyOnValues(v: string)
    ensures From(v).Some? <==> v in {"active", "inactive", "expired"}
  {
  }

  /** The shipped values and labels. */
  lemma ValuesAndLabels()
    ensures Active.Value() == "active" && Active.Label() == "Activo"
    ensures Inactive.Value() == "inactive" && Inactive.Label() == "Inactivo"
    ensures Expired.Value() == "expired" && Expired.Label() == "Expirado"
  {
  }

  /** Distinct cases have distinct backing values and distinct labels. */
  lemma ValuesAndLabelsDistinct(s: UrlStatus, t: UrlStatus)
    requires s != t
    ensures s.Value() != t.Value()
    ensures s.Label() != t.Label()
  {
  }

  /** `isAccessible()` holds for Active and for nothing else. */
  lemma OnlyActiveIsAccessible(s: UrlStatus)
    ensures s.IsAccessible() <==> s == Active
  {
  }
}
