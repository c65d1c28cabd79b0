/** Outcomes of a search step: a value, or the error the step raises. */
module Results {

  datatype Option<T> = None | Some(value: T)

  /** The failures a step can raise instead of returning a selection. */
  datatype SearchError =
    | GroupsDoNotDivideBeam    // DiverseBeamSearch: ValueError on beam % groups != 0
    | TopKOutOfRange           // torch.topk asked for more entries than the row has
    | NoneHasNoClone           // Sampling: `logprob.clone()` while logprob is None

  datatype Result<T> = Ok(value: T) | Err(error: SearchError)
}
