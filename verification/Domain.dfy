/** The values that travel through the pipeline. */
module Domain {
  import opened Geometry

  datatype ObjectClass = Unknown | Person | Forklift

  /** `trackId` is -1 when no tracker is attached. */
  datatype Detection = Detection(box: BoundingBox, cls: ObjectClass, confidence: real, trackId: int)

  datatype AlertType = PersonNearForklift
  datatype AlertSeverity = Info | Warning | Critical

  /** `timestamp` counts nanosecond ticks of the system clock. */
  datatype Alert = Alert(
    alertId: string,
    cameraId: string,
    alertType: AlertType,
    severity: AlertSeverity,
    timestamp: int,
    personTrackId: int,
    forkliftTrackId: int,
    personBox: BoundingBox,
    forkliftBox: BoundingBox,
    safetyZoneBox: BoundingBox,
    distancePx: real)

  /** A frame: its per-camera number and whether the image is empty. */
  datatype Frame = Frame(sequence: nat, empty: bool)
}
