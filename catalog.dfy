/** The fixed role catalog of app.py:21-39: four tier lists and the "no selection" entry. */
module Catalog {
  import opened Wrappers
  import opened Seqs

  /** The first entry of the role drop-down, meaning that no role was chosen. */
  const Placeholder: string := "— Selecione —"

  /** `cargos_superior`: roles that need a higher-education diploma. */
  const HigherEducationRoles: seq<string> := [
    "Enfermeiro Generalista", "Enfermeiro Emergencista", "Enfermeiro Saúde Mental", "Psicólogo",
    "Biomédico (30h)", "Biomédico (40h)", "Médico Veterinário", "Nutricionista", "Assistente Social",
    "Fisioterapeuta", "Educador Físico", "Pedagogo", "Terapeuta Ocupacional", "Fonoaudiólogo",
    "Farmacêutico", "Engenheiro Civil", "Gerente de Unidade"
  ]

  /** `cargos_tecnico` */
  const TechnicalRoles: seq<string> := [
    "Técnico de Enfermagem", "Técnico em Análise Clínica", "Técnico de Saúde Bucal",
    "Técnico em Radiologia"
  ]

  /** `cargos_medio` */
  const MidLevelRoles: seq<string> := [
    "TARM", "Auxiliar Administrativo", "Auxiliar Veterinário", "Artesão Oficineiro",
    "Intérprete de Libras", "Condutor de Ambulância", "Condutor de Motolância",
    "Rádio Operador (TARM)", "Auxiliar de Farmácia", "Almoxarife"
  ]

  /** `cargos_fundamental` */
  const ElementaryRoles: seq<string> := [
    "Auxiliar de Serviços Gerais", "Motorista", "Vaqueiro"
  ]

  /** `cargos_all`: the entries of the role drop-down, placeholder first. */
  const AllRoles: seq<string> :=
    [Placeholder] + HigherEducationRoles + TechnicalRoles + MidLevelRoles + ElementaryRoles

  datatype Tier = HigherEducation | Technical | MidLevel | Elementary

  function Roles(t: Tier): seq<string> {
    match t
    case HigherEducation => HigherEducationRoles
    case Technical => TechnicalRoles
    case MidLevel => MidLevelRoles
    case Elementary => ElementaryRoles
  }

  /** The tier of a role, tested in the order the validator tests the lists (app.py:175-179). */
  function TierOf(role: string): (t: Option<Tier>)
    ensures t.Some? ==> role in Roles(t.value)
    ensures t.None? <==> forall u :: role !in Roles(u)
  {
    if role in HigherEducationRoles then Some(HigherEducation)
    else if role in TechnicalRoles then Some(Technical)
    else if role in MidLevelRoles then Some(MidLevel)
    else if role in ElementaryRoles then Some(Elementary)
    else None
  }

  /** No tier lists a role twice. */
  lemma TierListDistinct(t: Tier)
    ensures Distinct(Roles(t))
  {
    match t
    case HigherEducation => HigherEducationDistinct();
    case Technical =>
    case MidLevel =>
    case Elementary =>
  }

  lemma HigherEducationDistinct()
    ensures Distinct(HigherEducationRoles)
  {
  }

  lemma HigherEducationApart()
    ensures Apart(HigherEducationRoles, TechnicalRoles)
    ensures Apart(HigherEducationRoles, ElementaryRoles)
  {
  }

  lemma HigherEducationMidLevelApart()
    ensures Apart(HigherEducationRoles, MidLevelRoles)
  {
  }

  lemma LowerTiersApart()
    ensures Apart(TechnicalRoles, MidLevelRoles)
    ensures Apart(TechnicalRoles, ElementaryRoles)
    ensures Apart(MidLevelRoles, ElementaryRoles)
  {
  }

  lemma TierListsApart(t: Tier, u: Tier)
    requires t != u
    ensures Apart(Roles(t), Roles(u))
  {
    HigherEducationApart();
    HigherEducationMidLevelApart();
    LowerTiersApart();
  }

  /** No role belongs to two tiers. */
  lemma TiersDisjoint(t: Tier, u: Tier, role: string)
    requires t != u && role in Roles(t)
    ensures role !in Roles(u)
  {
    TierListsApart(t, u);
  }

  /** The placeholder is in no tier. */
  lemma PlaceholderHasNoTier(t: Tier)
    ensures Placeholder !in Roles(t)
  {
  }

  /** A role has exactly the tier whose list holds it. */
  lemma TierOfExact(role: string, t: Tier)
    ensures TierOf(role) == Some(t) <==> role in Roles(t)
  {
    if role in Roles(t) {
      forall u | u != t ensures role !in Roles(u) {
        TiersDisjoint(t, u, role);
      }
    }
  }

  /** The drop-down offers the placeholder and exactly the roles that have a tier. */
  lemma AllRolesPartition(role: string)
    ensures role in AllRoles <==> role == Placeholder || TierOf(role).Some?
  {
  }
}
