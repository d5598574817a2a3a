/** The genders the analyses run over and their pronoun series, as far as
    the analyses read them; the database models themselves are not part of
    this model. */
module Genders {

  /** One row of `PronounSeries`: a pronoun of each type. */
  datatype PronounSeries = PronounSeries(subj: string, obj: string, posDet: string, posPro: string, reflex: string)

  /** `PronounSeries.PRONOUN_TYPES`, the column names of a pronoun series. */
  const PRONOUN_TYPES: seq<string> := ["subj", "obj", "pos_det", "pos_pro", "reflex"]

  /** The column `pronounType` of a series. */
  function Pronoun(series: PronounSeries, pronounType: string): string
    requires pronounType in PRONOUN_TYPES
  {
    match pronounType
    case "subj" => series.subj
    case "obj" => series.obj
    case "pos_det" => series.posDet
    case "pos_pro" => series.posPro
    case _ => series.reflex
  }

  /** A gender: `name` is its label (what `gender.label` and `str(gender)`
      give), `pronouns` what `gender.pronouns` gives, and `pronounSeries`
      its related pronoun series. */
  datatype Gender = Gender(name: string, pronouns: seq<string>, pronounSeries: seq<PronounSeries>)

  /** The names of some genders. */
  function Names(genders: seq<Gender>): set<string>
  {
    set k | 0 <= k < |genders| :: genders[k].name
  }

  /** The last of `genders` with the given name: the one whose counters a
      later assignment keyed by the name leaves in place. */
  ghost function Latest(genders: seq<Gender>, name: string): (g: Gender)
    requires name in Names(genders)
    ensures g in genders && g.name == name
    decreases |genders|
  {
    var last := genders[|genders| - 1];
    if last.name == name then last
    else
      assert name in Names(genders[..|genders| - 1]) by {
        var k :| 0 <= k < |genders| && genders[k].name == name;
        assert genders[..|genders| - 1][k] == genders[k];
      }
      Latest(genders[..|genders| - 1], name)
  }

  /** Appending a gender adds its name. */
  lemma NamesSnoc(genders: seq<Gender>, i: nat)
    requires i < |genders|
    ensures Names(genders[..i + 1]) == Names(genders[..i]) + {genders[i].name}
  {
    var prefix := genders[..i + 1];
    forall name | name in Names(prefix) ensures name in Names(genders[..i]) + {genders[i].name} {
      var k :| 0 <= k < i + 1 && prefix[k].name == name;
      if k < i {
        assert genders[..i][k] == prefix[k];
      }
    }
    forall name | name in Names(genders[..i]) ensures name in Names(prefix) {
      var k :| 0 <= k < i && genders[..i][k].name == name;
      assert prefix[k] == genders[..i][k];
    }
    assert prefix[i] == genders[i];
  }

  /** Appending a gender makes it the latest one with its name and keeps the others. */
  lemma LatestSnoc(genders: seq<Gender>, i: nat, name: string)
    requires i < |genders| && name in Names(genders[..i + 1])
    ensures name != genders[i].name ==> name in Names(genders[..i])
    ensures Latest(genders[..i + 1], name)
      == if name == genders[i].name then genders[i] else Latest(genders[..i], name)
  {
    NamesSnoc(genders, i);
    assert genders[..i + 1][..i] == genders[..i];
  }

  /** When no two genders share a name, each gender gets its own counters. */
  lemma LatestDistinct(genders: seq<Gender>, k: nat)
    requires k < |genders|
    requires forall a, b :: 0 <= a < b < |genders| ==> genders[a].name != genders[b].name
    ensures genders[k].name in Names(genders)
    ensures Latest(genders, genders[k].name) == genders[k]
    decreases |genders|
  {
    if k < |genders| - 1 {
      var prefix := genders[..|genders| - 1];
      assert prefix[k] == genders[k];
      LatestDistinct(prefix, k);
    }
  }
}
