/**
 * A cognate judgement in the shape the importer writes it: its own dense
 * id, the dense id of the judged form, and the cognate-set reference text.
 */
module CognateJudgementRecord {

  datatype Judgement = Judgement(cognateID: int, formReference: int, cognatesetReference: string)
}
