/** The anomaly record handed to the report sink, and its projection into a
    three-field summary card (src/reporting/generator.py). */
module Reporting {

  /** A provider's self-consistency figures as stored in the record. */
  datatype Consistency = Consistency(mean: real, min: real)

  /** The run parameters and audit evidence kept with a record. */
  datatype Meta = Meta(
    prompt: string,
    threshold: real,
    providers: seq<string>,
    runs: int,
    temperature: real,
    samples: map<string, seq<string>>,
    crossSimilarity: real,
    within: map<string, Consistency>)

  /** One anomaly record, as the probe builds it. */
  datatype AnomalyCard = AnomalyCard(
    id: string,
    description: string,
    severity: string,
    timestamp: string,
    meta: Meta)

  const CardKeys: set<string> := {"id", "description", "severity"}

  /** The card is a dictionary with exactly the keys id, description and
      severity, each holding the record's own value unchanged. */
  function GenerateAnomalyCard(anomaly: AnomalyCard): (card: map<string, string>)
    ensures card.Keys == CardKeys
    ensures card["id"] == anomaly.id
    ensures card["description"] == anomaly.description
    ensures card["severity"] == anomaly.severity
  {
    map["id" := anomaly.id, "description" := anomaly.description, "severity" := anomaly.severity]
  }

  /** Two records give the same card exactly when they agree on id,
      description and severity: the card loses the timestamp and the
      metadata and nothing else. */
  lemma CardDeterminesSummary(x: AnomalyCard, y: AnomalyCard)
    ensures GenerateAnomalyCard(x) == GenerateAnomalyCard(y)
        <==> x.id == y.id && x.description == y.description && x.severity == y.severity
  {
    var cx, cy := GenerateAnomalyCard(x), GenerateAnomalyCard(y);
    if x.id == y.id && x.description == y.description && x.severity == y.severity {
      assert forall k :: k in cx <==> k in cy;
      assert forall k :: k in cx ==> cx[k] == cy[k];
    }
  }
}
