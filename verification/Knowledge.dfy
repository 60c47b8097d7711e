/** The records of the knowledge layer and the views over their append-only history
    (src/book2skill/domain/knowledge.py). */
module Knowledge {

  datatype Option<+T> = None | Some(value: T)

  datatype Kind = Framework | Principle | Technique | AntiPattern | Term | Case | Checklist | DecisionRule

  datatype Status = Candidate | Reviewed | Approved | Rejected | Superseded

  datatype Evidence = Primary | Secondary | Inferred | UserAdded

  datatype Ref = Ref(sourceId: string, blockId: string, quote: Option<string>)

  datatype Unit = Unit(
    unitId: string,
    kind: Kind,
    content: string,
    conditions: seq<string>,
    exceptions: seq<string>,
    sourceRefs: seq<Ref>,
    confidence: Option<real>,
    reviewStatus: Status,
    recordVersion: nat,
    supersedes: Option<string>,
    evidenceLevel: Evidence,
    evidenceNote: Option<string>)
}
