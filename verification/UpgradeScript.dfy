/**
 * The upgrade itself: the apply goroutine that backs up the installed binary and launches the
 * script, and the script as a transaction over the service's files.  Service commands and copies
 * have outcomes that the caller supplies; a copy that fails may leave anything behind.
 */
module UpgradeScript {
  import opened Basics

  type Image = seq<bv8>

  datatype Copy = Copied | CopyFailed(leaves: Image)

  /** A start is recorded with the image that was installed when it was issued. */
  datatype Command = StopService | StartService(image: Image)

  /** What the script's commands turn out to do. */
  datatype Outcomes = Outcomes(stopped: bool, copy: Copy, running: bool, rollback: Copy)

  /**
   * The stages of the apply goroutine before the script runs, in order.  A failed write may leave
   * a script file behind, and after a failed launch the scheduled task may turn out not to be deletable.
   */
  datatype Stage = Connect | OpenService | ReadConfig | Backup(leaves: Image)
                 | WriteScript(leavesFile: bool) | CreateTask | RunTask(deleted: bool)

  /** Stages that come before the script file is written. */
  predicate Early(stage: Stage) {
    stage.Connect? || stage.OpenService? || stage.ReadConfig? || stage.Backup?
  }

  datatype Ending = NewRunning | OldStarted | RollbackFailed

  /** No half-copied image is ever started: each start finds the old or the new image installed. */
  predicate OnlyWhole(commands: seq<Command>, old_: Image, new_: Image) {
    forall i :: 0 <= i < |commands| && commands[i].StartService? ==> commands[i].image == old_ || commands[i].image == new_
  }

  predicate EndsWithStart(commands: seq<Command>, image: Image) {
    commands != [] && commands[|commands| - 1] == StartService(image)
  }

  class Installation {
    var installed: Image
    var backup: Option<Image>
    var download: Option<Image>
    var commands: seq<Command>
    var inProgress: bool
    var script: bool   // the script file exists
    var task: bool     // the scheduled task exists

    constructor (installed: Image, download: Image)
      ensures this.installed == installed && this.download == Some(download) && backup == None
      ensures commands == [] && inProgress && !script && !task
    {
      this.installed, this.download, backup, commands, inProgress := installed, Some(download), None, [], true;
      script, task := false, false;
    }

    /** The binary is overwritten only right after the service was told to stop. */
    method CopyToInstalled(source: Image, c: Copy) returns (failed: bool)
      requires commands != [] && commands[|commands| - 1] == StopService
      modifies `installed
      ensures failed == c.CopyFailed? && installed == if failed then c.leaves else source
    {
      match c {
        case Copied => installed := source;
        case CopyFailed(leaves) => installed := leaves;
      }
      failed := c.CopyFailed?;
    }

    /**
     * The script.  It ends with the new image running, or with the old image in place and its
     * start issued, or with a rollback copy that failed, and then the backup still is the old
     * image; which of the three is decided exactly by the outcomes.
     */
    method RunScript(o: Outcomes) returns (ending: Ending)
      requires backup == Some(installed) && download.Some?
      modifies `installed, `download, `commands, `script, `task
      ensures backup == Some(old(installed)) && download == None && !script && !task
      ensures old(commands) <= commands && OnlyWhole(commands[|old(commands)|..], old(installed), old(download).value)
      ensures !o.stopped ==> commands == old(commands) + [StopService, StartService(old(installed))]
      ensures o.stopped && o.copy.CopyFailed? ==>
                commands == old(commands) + [StopService]
                            + (if o.rollback.Copied? then [StartService(old(installed))] else [])
      ensures o.stopped && o.copy.Copied? ==>
                commands == old(commands) + [StopService, StartService(old(download).value)]
                            + (if o.running then []
                               else if o.rollback.Copied? then [StopService, StartService(old(installed))]
                               else [StopService])
      ensures ending == NewRunning <==> o.stopped && o.copy.Copied? && o.running
      ensures ending == RollbackFailed <==> o.stopped && !(o.copy.Copied? && o.running) && o.rollback.CopyFailed?
      ensures ending == NewRunning ==> installed == old(download).value && EndsWithStart(commands, installed)
      ensures ending == OldStarted ==> installed == old(installed) && EndsWithStart(commands, installed)
      ensures ending == RollbackFailed ==> installed == o.rollback.leaves
    {
      commands := commands + [StopService];
      if !o.stopped {
        commands := commands + [StartService(installed)];
        TidyUp();
        return OldStarted;
      }
      var failed := CopyToInstalled(download.value, o.copy);
      if failed {
        ending := RollBack(o.rollback);
        TidyUp();
        return;
      }
      commands := commands + [StartService(installed)];
      ending := NewRunning;
      if !o.running {
        commands := commands + [StopService];
        ending := RollBack(o.rollback);
      }
      TidyUp();
    }

    /** The end of the script: the download, the scheduled task and the script itself go. */
    method TidyUp()
      modifies `download, `script, `task
      ensures download == None && !script && !task
    {
      download := None;
      task := false;
      script := false;
    }

    /** Restoring the backup, and starting it if the copy worked. */
    method RollBack(c: Copy) returns (ending: Ending)
      requires backup.Some? && commands != [] && commands[|commands| - 1] == StopService
      modifies `installed, `commands
      ensures ending == if c.Copied? then OldStarted else RollbackFailed
      ensures installed == if c.Copied? then backup.value else c.leaves
      ensures commands == if c.Copied? then old(commands) + [StartService(backup.value)] else old(commands)
    {
      var failed := CopyToInstalled(backup.value, c);
      if failed {
        return RollbackFailed;
      }
      commands := commands + [StartService(installed)];
      return OldStarted;
    }

    /** Giving up before the script: the download is removed and the flag cleared. */
    method CleanUp()
      modifies `download, `inProgress
      ensures download == None && !inProgress
    {
      download := None;
      inProgress := false;
    }

    /**
     * The apply goroutine: without a complete backup, or with any other stage failing, nothing
     * installed is touched and no command is issued; otherwise the script is launched with the
     * old image backed up and the flag still held.  A failure leaves no script file and no task
     * of this attempt behind, unless the write or the deletion itself is what failed.
     */
    method Prepare(failing: Option<Stage>) returns (launched: bool)
      requires download.Some? && inProgress
      modifies `backup, `download, `inProgress, `script, `task
      ensures launched == failing.None?
      ensures launched ==> backup == Some(installed) && download == old(download) && inProgress && script && task
      ensures !launched ==> download == None && !inProgress
      ensures !launched ==> (script <==> (Early(failing.value) && old(script)) || failing.value == WriteScript(true))
      ensures !launched ==>
                (task <==> ((Early(failing.value) || failing.value.WriteScript?) && old(task)) || failing.value == RunTask(false))
      ensures failing.Some? && (failing.value.Connect? || failing.value.OpenService? || failing.value.ReadConfig?) ==>
                backup == old(backup)
    {
      if failing.Some? && (failing.value.Connect? || failing.value.OpenService? || failing.value.ReadConfig?) {
        CleanUp();
        return false;
      }
      if failing.Some? && failing.value.Backup? {
        backup := Some(failing.value.leaves);
        CleanUp();
        return false;
      }
      backup := Some(installed);
      launched := Launch(failing);
    }

    /** Writing the script file, and creating and running the scheduled task. */
    method Launch(failing: Option<Stage>) returns (launched: bool)
      requires failing.Some? ==> !Early(failing.value)
      modifies `download, `inProgress, `script, `task
      ensures launched == failing.None?
      ensures launched ==> script && task && download == old(download) && inProgress == old(inProgress)
      ensures !launched ==> download == None && !inProgress
      ensures !launched ==> (script <==> failing.value == WriteScript(true))
      ensures !launched ==> (task <==> (failing.value.WriteScript? && old(task)) || failing.value == RunTask(false))
    {
      if failing.Some? && failing.value.WriteScript? {
        script := failing.value.leavesFile;
        CleanUp();
        return false;
      }
      script := true;
      task := false;   // a leftover of an earlier attempt
      if failing == Some(CreateTask) {
        script := false;
        CleanUp();
        return false;
      }
      task := true;
      if failing.Some? {
        task := !failing.value.deleted;
        script := false;
        CleanUp();
        return false;
      }
      return true;
    }

    /**
     * The whole upgrade, for all images and all outcomes: either it never starts and the installed
     * image is untouched, or it is a transaction in the sense of RunScript.
     */
    method Upgrade(failing: Option<Stage>, o: Outcomes) returns (ending: Option<Ending>)
      requires download.Some? && inProgress
      modifies `installed, `backup, `download, `commands, `inProgress, `script, `task
      ensures download == None && (ending.Some? ==> !script && !task)
      ensures (ending == None <==> failing.Some?) && inProgress == ending.Some?
      ensures ending == None ==> installed == old(installed) && commands == old(commands)
      ensures ending == Some(NewRunning) ==> installed == old(download).value && o.running
      ensures ending == Some(OldStarted) ==> installed == old(installed) && EndsWithStart(commands, installed)
      ensures old(commands) <= commands && OnlyWhole(commands[|old(commands)|..], old(installed), old(download).value)
      ensures ending == Some(RollbackFailed) ==> backup == Some(old(installed)) && o.rollback.CopyFailed?
      ensures installed != old(installed) && installed != old(download).value ==> backup == Some(old(installed))
    {
      var launched := Prepare(failing);
      if !launched {
        return None;
      }
      var e := RunScript(o);
      return Some(e);
    }
  }
}
