/**
 The action types of a context action list and the packed structures of their data.
 */
module ActionTypes {
  const U8 := 1
  const U16 := 2
  const U32 := 4
  const U64 := 8

  const STREAM_REGISTERS := U16 + U16 + U16 + U32 + U16 + U32 + U16 + U8
  const HOST_BUFFER := U8 + U64 + U16 + U32 + U32
  const SEQUENCER := U8 + U16 + U32 + U32 + U64 + U64 + U64 + U64

  datatype ActionType =
    | FetchConfigDescriptors | TriggerSequencer | FetchFromVdma | EnableLcuDefault | EnableLcuNonDefault
    | DisableLcu | ActivateBoundaryInput | ActivateBoundaryOutput | ActivateInterContextInput
    | ActivateInterContextOutput | ActivateDdrInput | ActivateDdrOutput | DeactivateVdma | ChangeStreamMapping
    | AddDdrPair | DdrBufferingStart | LcuInterrupt | SequencerDone | InputTransferDone | OutputTransferDone
    | ModuleConfigDone | ApplicationChange | ActivateConfigChannel | DeactivateConfigChannel | RepeatedAction
    | WaitForDmaIdle | WaitForNms | FetchCcwBursts | ValidateVdma | BurstCreditsStart | BurstCreditsReset
    | DdrBufferingReset | OpenBoundaryInput | OpenBoundaryOutput | EnableNms | WriteDataByType | SwitchLcuBatch
    | ChangeBoundaryInputBatch | PauseVdma | ResumeVdma | ActivateCacheInput | ActivateCacheOutput
    | WaitForCacheUpdated | Sleep | Halt

  /** The order of the enumeration. */
  function TypeOf(kind: nat): ActionType
    requires kind < 45
  {
    match kind
    case 0 => FetchConfigDescriptors case 1 => TriggerSequencer case 2 => FetchFromVdma case 3 => EnableLcuDefault
    case 4 => EnableLcuNonDefault case 5 => DisableLcu case 6 => ActivateBoundaryInput
    case 7 => ActivateBoundaryOutput case 8 => ActivateInterContextInput case 9 => ActivateInterContextOutput
    case 10 => ActivateDdrInput case 11 => ActivateDdrOutput case 12 => DeactivateVdma
    case 13 => ChangeStreamMapping case 14 => AddDdrPair case 15 => DdrBufferingStart case 16 => LcuInterrupt
    case 17 => SequencerDone case 18 => InputTransferDone case 19 => OutputTransferDone case 20 => ModuleConfigDone
    case 21 => ApplicationChange case 22 => ActivateConfigChannel case 23 => DeactivateConfigChannel
    case 24 => RepeatedAction case 25 => WaitForDmaIdle case 26 => WaitForNms case 27 => FetchCcwBursts
    case 28 => ValidateVdma case 29 => BurstCreditsStart case 30 => BurstCreditsReset case 31 => DdrBufferingReset
    case 32 => OpenBoundaryInput case 33 => OpenBoundaryOutput case 34 => EnableNms case 35 => WriteDataByType
    case 36 => SwitchLcuBatch case 37 => ChangeBoundaryInputBatch case 38 => PauseVdma case 39 => ResumeVdma
    case 40 => ActivateCacheInput case 41 => ActivateCacheOutput case 42 => WaitForCacheUpdated case 43 => Sleep
    case _ => Halt
  }

  /** The fields of the packed structure of each type. */
  function SizeOf(t: ActionType): nat
  {
    match t
    case FetchConfigDescriptors => U16 + U8
    case TriggerSequencer => U8 + SEQUENCER
    case FetchFromVdma => U8 + U8 + U8 + U32 + U8 + U8
    case EnableLcuDefault => U8 + U8
    case EnableLcuNonDefault => U8 + U8 + U16 + U32
    case DisableLcu => U8
    case ActivateBoundaryInput => U8 + U8 + STREAM_REGISTERS + HOST_BUFFER + U32
    case ActivateBoundaryOutput => U8 + U8 + U8 + STREAM_REGISTERS + HOST_BUFFER
    case ActivateInterContextInput => U8 + U8 + U8 + STREAM_REGISTERS + HOST_BUFFER + U32
    case ActivateInterContextOutput => U8 + U8 + U8 + STREAM_REGISTERS + HOST_BUFFER
    case ActivateDdrInput => U8 + U8 + STREAM_REGISTERS + HOST_BUFFER + U32 + U8
    case ActivateDdrOutput => U8 + U8 + STREAM_REGISTERS + HOST_BUFFER + U32 + U8
    case DeactivateVdma => U8 + U8 + U8 + U8 + U32
    case ChangeStreamMapping => U8 + U8 + U8
    case AddDdrPair => U8 + U8 + U8 + U32 + U16
    case DdrBufferingStart => 0
    case LcuInterrupt => U8
    case SequencerDone => U8
    case InputTransferDone => U8 + U8 + U8 + U8 + U8
    case OutputTransferDone => U8 + U8 + U8 + U8 + U8
    case ModuleConfigDone => U8
    case ApplicationChange => 0
    case ActivateConfigChannel => U8 + U8 + HOST_BUFFER
    case DeactivateConfigChannel => U8 + U8
    case RepeatedAction => U8 + U8 + U8
    case WaitForDmaIdle => U8 + U8 + U8 + U8
    case WaitForNms => U8 + U8 + U8 + U8 + U8 + U8
    case FetchCcwBursts => U16 + U8
    case ValidateVdma => U8 + U8 + U8 + U8 + U32
    case BurstCreditsStart => 0
    case BurstCreditsReset => 0
    case DdrBufferingReset => 0
    case OpenBoundaryInput => U8 + HOST_BUFFER + U8 + U8 + U16 + U32
    case OpenBoundaryOutput => U8 + HOST_BUFFER
    case EnableNms => U8 + U8 + U16 + U16 + U8
    case WriteDataByType => U32 + U8 + U32 + U8 + U32 + U8
    case SwitchLcuBatch => U8 + U8 + U32
    case ChangeBoundaryInputBatch => U8
    case PauseVdma => U8 + U8
    case ResumeVdma => U8 + U8
    case ActivateCacheInput => U8 + U8 + U8 + STREAM_REGISTERS + HOST_BUFFER + U32
    case ActivateCacheOutput => STREAM_REGISTERS + HOST_BUFFER + U16 + U8 + U8 + U8
    case WaitForCacheUpdated => 0
    case Sleep => U32
    case Halt => 0
  }
}
