/** The savepoint session: Saved and Modified are decided from state IDs and profiles, never from text. */
module DocumentSessionModel {
  import opened Prelude
  import opened DocumentBytes

  /** An accepted file baseline; `stamp` stands for the disk observation and content fingerprint. */
  datatype FileState = FileState(logicalPath: string, meta: LoadMetadata, stamp: nat)

  datatype Session = Session(text: string, logicalPath: Option<string>, fileState: Option<FileState>, revision: nat,
                             currentId: Option<nat>, savedId: Option<nat>, textId: Option<nat>,
                             currentProfile: Profile, savedProfile: Profile)
  {
    predicate Modified() {
      !(currentId.Some? && savedId.Some? && currentId == savedId && currentProfile == savedProfile)
    }

    predicate TextIsCurrent() { currentId.Some? && textId == currentId }

    /** The revision moves exactly when something else does. */
    function Revised(before: Session): Session {
      if this == before then this else this.(revision := before.revision + 1)
    }

    function EstablishNew(t: string, id: nat, clean: bool): Session {
      this.(text := t, logicalPath := None, fileState := None, currentId := Some(id),
            savedId := if clean then Some(id) else None, textId := Some(id),
            currentProfile := ProfileFor(None), savedProfile := ProfileFor(None)).Revised(this)
    }

    function EstablishOpen(t: string, file: FileState, id: nat): Session {
      this.(text := t, logicalPath := Some(file.logicalPath), fileState := Some(file), currentId := Some(id),
            savedId := Some(id), textId := Some(id),
            currentProfile := ProfileFor(Some(file.meta)), savedProfile := ProfileFor(Some(file.meta))).Revised(this)
    }

    function EstablishRecoveredNamed(t: string, file: FileState, id: nat, saved: nat, profile: Profile): Session {
      this.(text := t, logicalPath := Some(file.logicalPath), fileState := Some(file), currentId := Some(id),
            savedId := Some(saved), textId := Some(id),
            currentProfile := profile, savedProfile := ProfileFor(Some(file.meta))).Revised(this)
    }

    function EstablishRecoveredUnbound(t: string, id: nat, profile: Profile): Session {
      this.(text := t, logicalPath := None, fileState := None, currentId := Some(id), savedId := None,
            textId := Some(id), currentProfile := profile, savedProfile := profile).Revised(this)
    }

    function Advance(id: nat): Session {
      this.(currentId := Some(id)).Revised(this)
    }

    function Synchronize(t: string): Session {
      this.(text := t, textId := currentId).Revised(this)
    }

    function Select(profile: Option<Profile>): Session {
      match profile
      case None => this
      case Some(p) => this.(currentProfile := p).Revised(this)
    }

    function AcceptCommittedSave(id: nat, path: string, file: Option<FileState>, written: Profile): Session {
      var accepted := if file.Some? then ProfileFor(Some(file.value.meta)) else written;
      this.(logicalPath := Some(path), fileState := file, savedId := Some(id),
            currentProfile := if currentProfile == written then accepted else currentProfile,
            savedProfile := accepted).Revised(this)
    }
  }

  /** The revision counts the changes: it moves by one exactly when any other field does. */
  lemma RevisionCountsChanges(before: Session, after: Session)
    requires after.revision == before.revision
    ensures
      var r := after.Revised(before);
      && r.(revision := before.revision) == after
      && r.revision == before.revision + (if after == before then 0 else 1)
  {}

  const FRESH_SESSION: Session := Session("", None, None, 0, None, None, None, ProfileFor(None), ProfileFor(None))

  class DocumentSession {
    var text: string
    var logicalPath: Option<string>
    var fileState: Option<FileState>
    var revision: nat
    var currentEditorStateId: Option<nat>
    var savedEditorStateId: Option<nat>
    var textEditorStateId: Option<nat>
    var currentProfile: Profile
    var savedProfile: Profile

    function Snapshot(): Session
      reads this
    {
      Session(text, logicalPath, fileState, revision, currentEditorStateId, savedEditorStateId, textEditorStateId,
              currentProfile, savedProfile)
    }

    constructor ()
      ensures Snapshot() == FRESH_SESSION
    {
      text, logicalPath, fileState, revision := "", None, None, 0;
      currentEditorStateId, savedEditorStateId, textEditorStateId := None, None, None;
      currentProfile, savedProfile := ProfileFor(None), ProfileFor(None);
    }

    method EstablishNew(t: string, id: nat, clean: bool)
      modifies this
      ensures Snapshot() == old(Snapshot()).EstablishNew(t, id, clean)
    {
      var before := Snapshot();
      text, logicalPath, fileState := t, None, None;
      currentEditorStateId := Some(id);
      savedEditorStateId := if clean then Some(id) else None;
      textEditorStateId := Some(id);
      currentProfile, savedProfile := ProfileFor(None), ProfileFor(None);
      if Snapshot() != before { revision := revision + 1; }
    }

    method EstablishOpen(t: string, file: FileState, id: nat)
      modifies this
      ensures Snapshot() == old(Snapshot()).EstablishOpen(t, file, id)
    {
      var before := Snapshot();
      text, logicalPath, fileState := t, Some(file.logicalPath), Some(file);
      currentEditorStateId, savedEditorStateId, textEditorStateId := Some(id), Some(id), Some(id);
      var profile := ProfileFor(Some(file.meta));
      currentProfile, savedProfile := profile, profile;
      if Snapshot() != before { revision := revision + 1; }
    }

    method EstablishRecoveredNamed(t: string, file: FileState, id: nat, saved: nat, profile: Profile)
      modifies this
      ensures Snapshot() == old(Snapshot()).EstablishRecoveredNamed(t, file, id, saved, profile)
    {
      var before := Snapshot();
      text, logicalPath, fileState := t, Some(file.logicalPath), Some(file);
      currentEditorStateId, savedEditorStateId, textEditorStateId := Some(id), Some(saved), Some(id);
      currentProfile, savedProfile := profile, ProfileFor(Some(file.meta));
      if Snapshot() != before { revision := revision + 1; }
    }

    method EstablishRecoveredUnbound(t: string, id: nat, profile: Profile)
      modifies this
      ensures Snapshot() == old(Snapshot()).EstablishRecoveredUnbound(t, id, profile)
    {
      var before := Snapshot();
      text, logicalPath, fileState := t, None, None;
      currentEditorStateId, savedEditorStateId, textEditorStateId := Some(id), None, Some(id);
      currentProfile, savedProfile := profile, profile;
      if Snapshot() != before { revision := revision + 1; }
    }

    method AdvanceEditorState(id: nat)
      modifies this
      ensures Snapshot() == old(Snapshot()).Advance(id)
    {
      var before := Snapshot();
      currentEditorStateId := Some(id);
      if Snapshot() != before { revision := revision + 1; }
    }

    method SynchronizeCurrentText(t: string)
      modifies this
      ensures Snapshot() == old(Snapshot()).Synchronize(t)
    {
      var before := Snapshot();
      text, textEditorStateId := t, currentEditorStateId;
      if Snapshot() != before { revision := revision + 1; }
    }

    /** `changed` tells the window whether recovery has to hear of the choice. */
    method SelectRepresentation(profile: Option<Profile>) returns (changed: bool)
      modifies this
      ensures Snapshot() == old(Snapshot()).Select(profile)
      ensures changed == (profile.Some? && profile.value != old(currentProfile))
      ensures revision == old(revision) + if changed then 1 else 0
    {
      var before := Snapshot();
      if profile.Some? { currentProfile := profile.value; }
      changed := Snapshot() != before;
      if changed { revision := revision + 1; }
    }

    method AcceptCommittedSave(id: nat, path: string, file: Option<FileState>, written: Profile)
      modifies this
      ensures Snapshot() == old(Snapshot()).AcceptCommittedSave(id, path, file, written)
    {
      var before := Snapshot();
      logicalPath, fileState, savedEditorStateId := Some(path), file, Some(id);
      var accepted := if file.Some? then ProfileFor(Some(file.value.meta)) else written;
      if currentProfile == written { currentProfile := accepted; }
      savedProfile := accepted;
      if Snapshot() != before { revision := revision + 1; }
    }

    method RestoreCheckpoint(s: Session)
      modifies this
      ensures Snapshot() == s
    {
      text, logicalPath, fileState, revision := s.text, s.logicalPath, s.fileState, s.revision;
      currentEditorStateId, savedEditorStateId, textEditorStateId := s.currentId, s.savedId, s.textId;
      currentProfile, savedProfile := s.currentProfile, s.savedProfile;
    }
  }
}
