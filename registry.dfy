/**
 * The two module-level model slots and `load_models`, which reloads both
 * models when either slot is empty and otherwise hands back the cached pair.
 */
module Registry {

  /** The artifact files the models are loaded from. */
  const MesoPath: string := "meso_model.h5"
  const YoloPath: string := "yolov8n-face.pt"

  /** A loaded MesoNet classifier (`load_model`). */
  class MesoModel {
    const path: string

    constructor Load(path: string)
      ensures this.path == path
    {
      this.path := path;
    }
  }

  /** A loaded YOLO face detector (`YOLO(...)`). */
  class YoloModel {
    const path: string

    constructor Load(path: string)
      ensures this.path == path
    {
      this.path := path;
    }
  }

  /** The global slots `meso` and `yolo_model`; `null` is Python's None. */
  class ModelSlots {
    var meso: MesoModel?
    var yolo: YoloModel?

    /** Module import: both models are loaded from their files. */
    constructor ()
      ensures meso != null && yolo != null && fresh(meso) && fresh(yolo)
      ensures meso.path == MesoPath && yolo.path == YoloPath
    {
      meso := new MesoModel.Load(MesoPath);
      yolo := new YoloModel.Load(YoloPath);
    }

    /** `load_models`: both handles are non-null afterwards; a full cache is
        returned unchanged, and a cache missing either model gets both
        reloaded from their files. */
    method LoadModels() returns (m: MesoModel, y: YoloModel)
      modifies this
      ensures meso == m && yolo == y
      ensures old(meso) != null && old(yolo) != null ==> m == old(meso) && y == old(yolo)
      ensures old(meso) == null || old(yolo) == null ==>
        fresh(m) && fresh(y) && m.path == MesoPath && y.path == YoloPath
    {
      if meso == null || yolo == null {
        meso := new MesoModel.Load(MesoPath);
        yolo := new YoloModel.Load(YoloPath);
      }
      m, y := meso, yolo;
    }
  }
}
