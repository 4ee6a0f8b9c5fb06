/** The diagnosis records the cache and the session store carry, the follow-up
    records the merge folds in, and the response the endpoint returns
    (app/models.py and the dictionaries built in app/api/endpoints.py).

    The source passes these around as untyped dictionaries; here every
    recognised key is a field, and a key that is absent from the dictionary is
    `None`. Keys the layer never interprets are kept as a set of names so that an
    otherwise empty dictionary can still be told apart from `{}`. */
module Records {
  import opened Common

  /** One entry of `materials` (keys `name`, `category`, `search_query`). */
  datatype Material = Material(name: Option<string>, category: Option<string>, searchQuery: Option<string>)

  /** One entry of `repair_steps` (keys `step`, `title`, `instruction`, `safety_tip`). */
  datatype RepairStep = RepairStep(step: Option<int>, title: Option<string>, instruction: Option<string>, safetyTip: Option<string>)

  /** A diagnosis as the vision model returns it and as it is cached and stored. */
  datatype DiagnosisRecord = DiagnosisRecord(
    status: Option<string>,
    reason: Option<string>,
    suggestions: Option<seq<string>>,
    objectIdentified: Option<string>,
    failureMode: Option<string>,
    diagnosis: Option<string>,
    confidence: Option<real>,
    issueType: Option<string>,
    professionalHelpRecommended: Option<string>,
    professionalHelpReason: Option<string>,
    estimatedTime: Option<string>,
    difficulty: Option<string>,
    materials: Option<seq<Material>>,
    toolsRequired: Option<seq<string>>,
    tools: Option<seq<string>>,
    repairSteps: Option<seq<RepairStep>>,
    warnings: Option<seq<string>>,
    safetyWarnings: Option<seq<string>>,
    followupQuestions: Option<seq<string>>,
    otherKeys: set<string>)

  /** The empty dictionary `{}`, the only record Python treats as false. */
  const EmptyRecord := DiagnosisRecord(None, None, None, None, None, None, None, None, None, None,
                                       None, None, None, None, None, None, None, None, None, {})

  /** A follow-up answer from the vision model (keys `answer`,
      `additional_materials`, `additional_steps`, `additional_warnings`). */
  datatype Followup = Followup(
    answer: Option<string>,
    additionalMaterials: Option<seq<Material>>,
    additionalSteps: Option<seq<RepairStep>>,
    additionalWarnings: Option<seq<string>>)

  /** `Material` of the response: every field filled in. */
  datatype MaterialOut = MaterialOut(name: string, category: string, searchQuery: string)

  /** `RepairStep` of the response. */
  datatype StepOut = StepOut(step: int, title: string, instruction: string, safetyTip: Option<string>)

  /** `DiagnosisResponse` without its timing block. */
  datatype DiagnosisResponse = DiagnosisResponse(
    diagnosis: string,
    confidence: real,
    issueType: Option<string>,
    professionalHelpRecommended: Option<string>,
    professionalHelpReason: Option<string>,
    estimatedTime: Option<string>,
    difficulty: Option<string>,
    materials: seq<MaterialOut>,
    toolsRequired: seq<string>,
    repairSteps: seq<StepOut>,
    warnings: seq<string>,
    followupQuestions: seq<string>,
    sessionId: Option<string>)
}
